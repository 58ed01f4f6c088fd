/** The five sensors of the tag, the handle each one is configured through and
    the handle its data is read from, and the command that switches it on or
    off: a handle and the payload written to it. */
module Commands {
  import opened Registers

  datatype Sensor = Humidity | IrTemperature | Barometer | NineAxis | Optical

  /** The handle written by each `enable_*` method. The five handles lie eight
      apart, from 0x27 to 0x47. */
  function ConfigHandle(s: Sensor): (h: nat)
    ensures 0x27 <= h <= 0x47 && h % 8 == 7
  {
    match s
    case Humidity => 0x2f
    case IrTemperature => 0x27
    case Barometer => 0x37
    case NineAxis => 0x3f
    case Optical => 0x47
  }

  /** The handle read by each `check_*` method: three below the sensor's
      configuration handle. */
  function DataHandle(s: Sensor): (h: nat)
    ensures h + 3 == ConfigHandle(s)
  {
    match s
    case Humidity => 0x2c
    case IrTemperature => 0x24
    case Barometer => 0x34
    case NineAxis => 0x3c
    case Optical => 0x44
  }

  datatype Command = Command(handle: nat, payload: seq<byte>)

  /** The write an `enable_*` method issues: one byte 0x01 / 0x00 for most
      sensors, two bytes 0x7f 0x00 / 0x00 0x00 for the movement sensor. */
  function EnableCommand(s: Sensor, enable: bool): (c: Command)
    ensures c.handle == ConfigHandle(s)
    ensures |c.payload| == (if s == NineAxis then 2 else 1)
    ensures c.payload[0] != 0 <==> enable
  {
    var on: byte := if s == NineAxis then 0x7f else 0x01;
    var first: byte := if enable then on else 0x00;
    Command(ConfigHandle(s), if s == NineAxis then [first, 0x00] else [first])
  }

  /** The payloads, byte for byte. */
  lemma EnablePayloads(s: Sensor, enable: bool)
    ensures s != NineAxis ==> EnableCommand(s, enable).payload == [if enable then 0x01 else 0x00]
    ensures s == NineAxis ==> EnableCommand(s, enable).payload == [if enable then 0x7f else 0x00, 0x00]
  {
  }

  /** No two sensors share a configuration handle, a data handle, or a handle
      of one kind with one of the other. */
  lemma HandlesDistinct(s: Sensor, t: Sensor)
    ensures ConfigHandle(s) == ConfigHandle(t) <==> s == t
    ensures DataHandle(s) == DataHandle(t) <==> s == t
    ensures ConfigHandle(s) != DataHandle(t)
  {
  }

  /** The command determines the sensor and whether it is switched on. */
  lemma EnableCommandInjective(s: Sensor, e: bool, t: Sensor, f: bool)
    ensures EnableCommand(s, e) == EnableCommand(t, f) <==> s == t && e == f
  {
    HandlesDistinct(s, t);
  }
}
