# SensorTag register decoding

This is a Dafny model of the `SensorTag` class in `sensors/light-off-sensor/sensor_tag.py`. That class drives a
Bluetooth Low-Energy multi-sensor tag. It switches each sensor on or off by writing a payload to the sensor's
configuration handle. It reads the sensor's data handle and decodes the raw bytes into readings, which it stores
on the object. The five sensors are humidity, IR temperature, barometer, the 9-axis movement sensor and the optical
sensor.

The model has four modules:

- `Registers` (`registers.dfy`): the byte layout. It covers little-endian 16- and 24-bit words and signed 16-bit
  words as `struct.unpack('h', lo + hi)` reads them on a little-endian host. It also defines Python's `&` and `>>`
  on non-negative integers, and the 12-bit mantissa / 4-bit exponent split of the optical word.
- `Decoding` (`decoding.dfy`): the scaling formulas, as exact real numbers before any rounding, and one decoder per
  sensor. A decoder returns `None` when the buffer is too short for the bytes it indexes. The module also holds the
  lemmas about which bytes each reading depends on.
- `Commands` (`commands.dfy`): the configuration and data handles of each sensor, and the handle and payload that
  each `enable_*` method writes.
- `LightOffSensor` (`sensor_tag.dfy`): the class `SensorTag`. Its fields are the readings set up by `__init__`.
  Each `check_*` method is a method that overwrites exactly the fields the source overwrites.

Modelling choices:

- **The transport is a parameter.** Each check method receives the characteristic value
  (`read_by_handle(...)[0]`) as a byte sequence. Each check method that rounds also receives Python's `round` as
  an uninterpreted function `round: (real, nat) -> real`.
- **Short buffers.** Each `check_*` indexes all of its bytes before it writes any field. A buffer that is too
  short therefore raises `IndexError` with the object unchanged. The methods model this by returning
  `ok == false` and changing nothing.
- **Longer buffers.** Bytes past the ones indexed are ignored, because that is what the code does.
- **The gyroscope divisor** `65536 / 500` is integer division in this Python 2 file (line 7 imports only
  `print_function`), so it is 131.
- **Accelerometer bytes.** The accelerometer words are read from the byte pairs the code names: (low, high) =
  (8, 7), (10, 9) and (10, 11). They are not corrected. `Decoding.AccelXNotRecovered` and `Decoding.AccelYNotRecovered`
  show that the x and y accelerations are not the little-endian words at offsets 6 and 8: an x acceleration alone
  reads as zero, and a y acceleration alone reads as an x acceleration. `Decoding.NineAxisLayoutRoundTrip` shows that
  the gyroscope words, the magnetometer words and the z acceleration are recovered.
- **IR channels.** `check_IRtemperature` stores the word at bytes 0..1 as the object temperature and the word at
  bytes 2..3 as the shared `temperature`. The model keeps this assignment as written.
- The dictionaries `gyrometer`, `acceleration` and `geomagnetism`, keyed `"x"`, `"y"`, `"z"`, are maps from the
  datatype `Axis = X | Y | Z`. They are updated entry by entry, as in the source.

## Model

| member | source | states |
|---|---|---|
| `Registers.Word16` | sensors/light-off-sensor/sensor_tag.py:50-51 | the word `(b1 << 8) + b0` is below 2^16, and its low and high bytes are b0 and b1 |
| `Registers.Word24` | sensors/light-off-sensor/sensor_tag.py:74-75 | the word `(b2 << 16) + (b1 << 8) + b0` is below 2^24, and its three bytes are b0, b1, b2 |
| `Registers.Int16` | sensors/light-off-sensor/sensor_tag.py:86-94 | the signed word lies in [-32768, 32767], is negative exactly when the high byte's top bit is set, and is congruent to the unsigned word mod 2^16 |
| `Registers.Int16Cases` | sensors/light-off-sensor/sensor_tag.py:86-94 | the signed word is `lo + 256*hi` when that is below 32768, and that value minus 65536 otherwise |
| `Registers.Int16OfBytes` | sensors/light-off-sensor/sensor_tag.py:86-94 | reading back the two bytes of any 16-bit signed value gives the value |
| `Registers.BytesOfInt16` | sensors/light-off-sensor/sensor_tag.py:86-94 | writing the value read from two bytes gives those bytes back |
| `Registers.Int16Injective` | sensors/light-off-sensor/sensor_tag.py:86-94 | two byte pairs give the same signed word exactly when they are equal |
| `Registers.BitAnd` | sensors/light-off-sensor/sensor_tag.py:113-114 | `a & b` is at most a and at most b |
| `Registers.ShiftRight` | sensors/light-off-sensor/sensor_tag.py:114 | `a >> n` is at most a |
| `Registers.LuxMantissa` | sensors/light-off-sensor/sensor_tag.py:113 | `raw & 0b0000111111111111` is below 4096 for every raw |
| `Registers.LuxExponent` | sensors/light-off-sensor/sensor_tag.py:114 | `(raw & 0b1111000000000000) >> 12` is below 16 for every raw |
| `Registers.Pow2` | sensors/light-off-sensor/sensor_tag.py:115 | `pow(2, e)` is at least 1 |
| `Registers.LowBitsSplit` | sensors/light-off-sensor/sensor_tag.py:112-114 | every non-negative number is its k low bits plus 2^k times `a >> k`, and the k low bits are below 2^k |
| `Registers.BitAndOnes` | sensors/light-off-sensor/sensor_tag.py:113 | `a & (2^n - 1)` keeps exactly the n low bits of a |
| `Registers.BitAndRangeOnes` | sensors/light-off-sensor/sensor_tag.py:114 | masking with bits k..n-1 leaves the n low bits less the k low bits |
| `Registers.ShiftRightMul` | sensors/light-off-sensor/sensor_tag.py:114 | `(q * 2^n) >> n == q` |
| `Registers.LuxFields` | sensors/light-off-sensor/sensor_tag.py:112-114 | mantissa `raw & 0x0FFF` is below 4096, exponent `(raw & 0xF000) >> 12` is below 16, and `raw == mantissa + 4096 * exponent` |
| `Decoding.HumidityTemperature` | sensors/light-off-sensor/sensor_tag.py:52 | the unrounded temperature `raw/65536*165 - 40` lies in [-40, 125) |
| `Decoding.RelativeHumidity` | sensors/light-off-sensor/sensor_tag.py:53 | the unrounded humidity `raw/65536*100` lies in [0, 100) |
| `Decoding.IrTemperature` | sensors/light-off-sensor/sensor_tag.py:64-65 | `(raw/4)*0.03125` is exactly raw/128 and lies in [0, 512) |
| `Decoding.Hundredths` | sensors/light-off-sensor/sensor_tag.py:76-77 | `raw/100` of a 24-bit count is exactly raw hundredths and lies in [0, 167772.16) |
| `Decoding.GyroDivisor` | sensors/light-off-sensor/sensor_tag.py:95-97 | `65536 / 500` is the floored quotient q, with 500q <= 65536 < 500(q+1) |
| `Decoding.GyroRate` | sensors/light-off-sensor/sensor_tag.py:95-97 | with Python 2 integer division the rate is exactly raw/131 and lies in [-32768/131, 32768/131) |
| `Decoding.Acceleration` | sensors/light-off-sensor/sensor_tag.py:99-101 | `raw / (32768/8)` is exactly raw/4096 and lies in [-8, 8) |
| `Decoding.Lux` | sensors/light-off-sensor/sensor_tag.py:115 | `m * 0.01 * 2^e` times 100 is `m * 2^e`; it is non-negative, and zero exactly when the mantissa is zero |
| `Decoding.DecodeHumidity` | sensors/light-off-sensor/sensor_tag.py:49-53 | there is a reading exactly when at least 4 bytes are given; its temperature is in [-40, 125) and its humidity in [0, 100) |
| `Decoding.DecodeIrTemperature` | sensors/light-off-sensor/sensor_tag.py:61-65 | there is a reading exactly when at least 4 bytes are given; both temperatures lie in [0, 512) |
| `Decoding.DecodeBarometer` | sensors/light-off-sensor/sensor_tag.py:73-77 | there is a reading exactly when at least 6 bytes are given; both values lie in [0, 167772.16) |
| `Decoding.NineAxisRaw` | sensors/light-off-sensor/sensor_tag.py:85-94 | there are words exactly when at least 18 bytes are given; all nine lie in [-32768, 32767] |
| `Decoding.ScaleNineAxis` | sensors/light-off-sensor/sensor_tag.py:95-104 | gyroscope = raw/131, acceleration = raw/4096 in [-8, 8), magnetometer = raw value unscaled |
| `Decoding.DecodeNineAxis` | sensors/light-off-sensor/sensor_tag.py:85-104 | there is a reading exactly when at least 18 bytes are given |
| `Decoding.DecodeOptical` | sensors/light-off-sensor/sensor_tag.py:111-115 | there is a reading exactly when at least 2 bytes are given; it is non-negative, and zero exactly when the 12-bit mantissa is zero |
| `Decoding.HumidityBytes` | sensors/light-off-sensor/sensor_tag.py:50-53 | two buffers have the same temperature iff bytes 0..1 agree, and the same humidity iff bytes 2..3 agree |
| `Decoding.IrTemperatureBytes` | sensors/light-off-sensor/sensor_tag.py:62-65 | two buffers have the same object temperature iff bytes 0..1 agree, and the same ambient temperature iff bytes 2..3 agree |
| `Decoding.BarometerBytes` | sensors/light-off-sensor/sensor_tag.py:74-77 | bytes 0..2 affect only the temperature and bytes 3..5 only the pressure; each value equals another buffer's iff its three bytes agree |
| `Decoding.NineAxisBytes` | sensors/light-off-sensor/sensor_tag.py:86-94 | each of the nine words agrees between two buffers iff its byte pair agrees: accel x uses bytes 7 and 8, y uses 9 and 10, z uses 10 and 11 |
| `Decoding.NineAxisIgnoresByte6` | sensors/light-off-sensor/sensor_tag.py:86-94 | changing byte 6 never changes the 9-axis reading |
| `Decoding.NineAxisByte10` | sensors/light-off-sensor/sensor_tag.py:90-91 | changing byte 10 changes both the y and the z acceleration |
| `Decoding.ReadsOnlyPrefix` | sensors/light-off-sensor/sensor_tag.py:47-115 | buffers that agree on the first 4, 4, 6, 18 or 2 bytes give the same humidity, IR, barometer, 9-axis or optical reading |
| `Decoding.NineAxisLayoutRoundTrip` | sensors/light-off-sensor/sensor_tag.py:86-94 | decoding nine words laid out little-endian at offsets 0..16 recovers the gyroscope words, the magnetometer words and the z acceleration |
| `Decoding.AccelXNotRecovered` | sensors/light-off-sensor/sensor_tag.py:89-90 | an x acceleration of 1 laid out little-endian at offset 6 decodes to zero acceleration on all axes |
| `Decoding.AccelYNotRecovered` | sensors/light-off-sensor/sensor_tag.py:89-90 | a y acceleration of 1 laid out little-endian at offset 8 decodes to x = 1, y = 0, z = 0 |
| `Decoding.OpticalFields` | sensors/light-off-sensor/sensor_tag.py:112-115 | the optical word is mantissa + 4096*exponent with mantissa < 4096 and exponent < 16; lux*100 == mantissa*2^exponent; lux <= 4095*2^15/100 |
| `Decoding.SpecimenReadings` | sensors/light-off-sensor/sensor_tag.py:50-53 | all-zero humidity bytes read -40 C and 0 %, all-0xFF bytes read 8191835/65536 C and 6553500/65536 %; barometer bytes 10 27 00 20 4E 00 read 100 and 200 |
| `Decoding.OpticalSpecimenZero` | sensors/light-off-sensor/sensor_tag.py:112-115 | optical bytes 00 10 (mantissa 0, exponent 1) read 0 lux |
| `Decoding.OpticalSpecimenFull` | sensors/light-off-sensor/sensor_tag.py:112-115 | optical bytes FF 0F (mantissa 4095, exponent 0) read 40.95 lux |
| `Commands.ConfigHandle` | sensors/light-off-sensor/sensor_tag.py:43-108 | the handles written by the `enable_*` methods (0x2f, 0x27, 0x37, 0x3f, 0x47) lie eight apart, from 0x27 to 0x47 |
| `Commands.DataHandle` | sensors/light-off-sensor/sensor_tag.py:43-111 | each sensor's data handle (0x2c, 0x24, 0x34, 0x3c, 0x44) is its configuration handle minus 3 |
| `Commands.EnableCommand` | sensors/light-off-sensor/sensor_tag.py:43-108 | the write goes to the configuration handle; its payload is 2 bytes for the 9-axis sensor and 1 byte otherwise; the first byte is non-zero exactly when enabling |
| `Commands.EnablePayloads` | sensors/light-off-sensor/sensor_tag.py:43-108 | payloads are 0x01 / 0x00 for humidity, IR, barometer and optical, and 0x7f 0x00 / 0x00 0x00 for the 9-axis sensor |
| `Commands.HandlesDistinct` | sensors/light-off-sensor/sensor_tag.py:43-111 | no two sensors share a configuration or data handle, and no data handle is a configuration handle |
| `Commands.EnableCommandInjective` | sensors/light-off-sensor/sensor_tag.py:43-108 | two enable commands are equal exactly when they are for the same sensor and the same on/off choice |
| `LightOffSensor.SensorTag.constructor` | sensors/light-off-sensor/sensor_tag.py:18-27 | every reading is 0.0, and each vector dictionary maps x, y and z to 0.0 |
| `LightOffSensor.SensorTag.CheckHumidity` | sensors/light-off-sensor/sensor_tag.py:47-53 | with 4 or more bytes, temperature and humidity become the decoded values rounded to 1 place; otherwise nothing changes; no other field is written |
| `LightOffSensor.SensorTag.CheckIrTemperature` | sensors/light-off-sensor/sensor_tag.py:59-65 | with 4 or more bytes, object temperature (bytes 0..1) and temperature (bytes 2..3) become the rounded values; otherwise nothing changes; no other field is written |
| `LightOffSensor.SensorTag.CheckBarometer` | sensors/light-off-sensor/sensor_tag.py:71-77 | with 6 or more bytes, temperature and barometer become the rounded values; otherwise nothing changes; no other field is written |
| `LightOffSensor.SensorTag.CheckNineAxis` | sensors/light-off-sensor/sensor_tag.py:83-104 | with 18 or more bytes, the x, y, z entries become gyro rounded to 2 places, unrounded acceleration and raw magnetometer values, written entry by entry; otherwise nothing changes; no scalar field is written |
| `LightOffSensor.SensorTag.CheckOptical` | sensors/light-off-sensor/sensor_tag.py:110-115 | with 2 or more bytes, lux becomes the unrounded decoded value; otherwise nothing changes; no other field is written |

## Left out

- The Bluetooth transport (`GATTRequester`, `connect`, `disconnect`, `check_status`, and the `read_by_handle` /
  `write_by_handle` calls) is left out: these are foreign calls with no visible semantics. The read value is a
  parameter of each check method. The value written is what `Commands.EnableCommand` returns.
- The `time.sleep` delays in the check methods: timing only.
- The `Server` and `DiscoverDevice` classes: thin wrappers over the discovery service.
- The `__main__` block: a cloud upload, a timestamp and a script. The script uses `tag`, but the line that would
  create `tag` is commented out.
- Python's `round(x, n)` is not modelled. It is passed to the check methods as an uninterpreted function.
- Binary floating point is not modelled: every scaling is an exact real. For example, `0.01` and `32768.0 / 8.0`
  are taken as exact.
- `struct.unpack('h', ...)` uses native byte order; the model assumes a little-endian host.
- `read_by_handle(...)[0]` fails when the read returns an empty list. That failure belongs to the transport and is
  not modelled.
- The console output of `connect`, `disconnect` and `check_status`.
