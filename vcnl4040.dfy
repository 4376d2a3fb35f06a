/** Driver for the VCNL4040 proximity and ambient-light sensor. Each register holds 16 bits,
    moved over I2C as a low byte and a high byte. Configuration setters read a register,
    keep the bits a mask lets through in one byte, OR in the new value and write both bytes back.

    The device behind a driver object is its register map `regs`. The log `frames` records the
    I2C write messages sent to the device, in order. */
module Vcnl4040 {

  import opened Wrappers

  /** I2C slave address used when none is given. */
  const DEFAULT_ADDR: int := 0x60

  /** A command code: the register number sent as the first byte of a transfer. */
  type Command = c: int | 0 <= c < 256

  // Command codes: register numbers. Two configuration registers hold two logical
  // registers each, one per byte.
  const ALS_CONF: Command := 0x00
  const ALS_THDH: Command := 0x01
  const ALS_THDL: Command := 0x02
  const PS_CONF1: Command := 0x03  // low byte
  const PS_CONF2: Command := 0x03  // high byte
  const PS_CONF3: Command := 0x04  // low byte
  const PS_MS: Command := 0x04     // high byte
  const PS_CANC: Command := 0x05
  const PS_THDL: Command := 0x06
  const PS_THDH: Command := 0x07
  const PS_DATA: Command := 0x08
  const ALS_DATA: Command := 0x09
  const WHITE_DATA: Command := 0x0A
  const INT_FLAG: Command := 0x0B  // high byte
  const ID: Command := 0x0C

  // Command data values and the masks that keep the bits outside each field. A complemented
  // Python mask (`~x`) ANDed with a byte keeps the same bits as the 8-bit complement here.
  const ALS_IT_MASK: bv8 := !0xC0
  const ALS_IT_80MS: bv8 := 0x00
  const ALS_IT_160MS: bv8 := 0x80
  const ALS_IT_320MS: bv8 := 0x40
  const ALS_IT_640MS: bv8 := 0xC0

  const ALS_PERS_MASK: bv8 := !0x0C
  const ALS_PERS_1: bv8 := 0x00
  const ALS_PERS_2: bv8 := 0x04
  const ALS_PERS_4: bv8 := 0x08
  const ALS_PERS_8: bv8 := 0x0C

  /** Not complemented in the driver: it keeps bit 1 and clears every other bit. */
  const ALS_INT_EN_MASK: bv8 := 0x02
  const ALS_INT_DISABLE: bv8 := 0x00
  const ALS_INT_ENABLE: bv8 := 0x02

  const ALS_SD_MASK: bv8 := !0x01
  const ALS_SD_POWER_ON: bv8 := 0x00
  const ALS_SD_POWER_OFF: bv8 := 0x01

  const PS_DUTY_MASK: bv8 := !0xC0
  const PS_DUTY_40: bv8 := 0x00
  const PS_DUTY_80: bv8 := 0x40
  const PS_DUTY_160: bv8 := 0x80
  const PS_DUTY_320: bv8 := 0xC0

  const PS_PERS_MASK: bv8 := !0x30
  const PS_PERS_1: bv8 := 0x00
  const PS_PERS_2: bv8 := 0x10
  const PS_PERS_3: bv8 := 0x20
  const PS_PERS_4: bv8 := 0x30

  const PS_IT_MASK: bv8 := !0x0E
  const PS_IT_1T: bv8 := 0x00
  const PS_IT_15T: bv8 := 0x02
  const PS_IT_2T: bv8 := 0x04
  const PS_IT_25T: bv8 := 0x06
  const PS_IT_3T: bv8 := 0x08
  const PS_IT_35T: bv8 := 0x0A
  const PS_IT_4T: bv8 := 0x0C
  const PS_IT_8T: bv8 := 0x0E

  const PS_SD_MASK: bv8 := !0x01
  const PS_SD_POWER_ON: bv8 := 0x00
  const PS_SD_POWER_OFF: bv8 := 0x01

  const PS_HD_MASK: bv8 := !0x08
  const PS_HD_12_BIT: bv8 := 0x00
  const PS_HD_16_BIT: bv8 := 0x08

  const PS_INT_MASK: bv8 := !0x03
  const PS_INT_DISABLE: bv8 := 0x00
  const PS_INT_CLOSE: bv8 := 0x01
  const PS_INT_AWAY: bv8 := 0x02
  const PS_INT_BOTH: bv8 := 0x03

  /** The mask clears bit 4 but the enable value is bit 1. */
  const PS_SMART_PERS_MASK: bv8 := !0x10
  const PS_SMART_PERS_DISABLE: bv8 := 0x00
  const PS_SMART_PERS_ENABLE: bv8 := 0x02

  const PS_AF_MASK: bv8 := !0x08
  const PS_AF_DISABLE: bv8 := 0x00
  const PS_AF_ENABLE: bv8 := 0x08

  /** The mask clears bit 3 but the trigger value is bit 2. */
  const PS_TRIG_MASK: bv8 := !0x08
  const PS_TRIG_TRIGGER: bv8 := 0x04

  const WHITE_EN_MASK: bv8 := !0x80
  const WHITE_ENABLE: bv8 := 0x00
  const WHITE_DISABLE: bv8 := 0x80

  const PS_MS_MASK: bv8 := !0x40
  const PS_MS_DISABLE: bv8 := 0x00
  const PS_MS_ENABLE: bv8 := 0x40

  const LED_I_MASK: bv8 := !0x07
  const LED_50MA: bv8 := 0x00
  const LED_75MA: bv8 := 0x01
  const LED_100MA: bv8 := 0x02
  const LED_120MA: bv8 := 0x03
  const LED_140MA: bv8 := 0x04
  const LED_160MA: bv8 := 0x05
  const LED_180MA: bv8 := 0x06
  const LED_200MA: bv8 := 0x07

  const INT_FLAG_ALS_LOW: bv8 := 0x20
  const INT_FLAG_ALS_HIGH: bv8 := 0x10
  const INT_FLAG_CLOSE: bv8 := 0x02
  const INT_FLAG_AWAY: bv8 := 0x01

  /** One 16-bit register as its two bytes. */
  datatype Register = Register(lsb: bv8, msb: bv8)

  type RegisterFile = map<Command, Register>

  /** Every command code names a register. */
  ghost predicate Total(regs: RegisterFile) {
    forall c: Command :: c in regs
  }

  /** Keep the bits of `b` the mask lets through, then set the bits of `value`. */
  function MaskOr(b: bv8, mask: bv8, value: bv8): bv8 {
    (b & mask) | value
  }

  /** The register after writeLower: new low byte, high byte as it was. */
  function LowerWritten(r: Register, mask: bv8, value: bv8): Register {
    Register(MaskOr(r.lsb, mask, value), r.msb)
  }

  /** The register after writeUpper: low byte as it was, new high byte. */
  function UpperWritten(r: Register, mask: bv8, value: bv8): Register {
    Register(r.lsb, MaskOr(r.msb, mask, value))
  }

  /** The I2C write message for a register write: command code, low byte, high byte. */
  function Frame(command: Command, r: Register): seq<bv8> {
    [command as bv8, r.lsb, r.msb]
  }

  /** `value & 0xFF` for an arbitrary Python integer (two's complement, so Euclidean). */
  function LowByte(value: int): bv8 {
    (value % 256) as bv8
  }

  /** `(value & 0xFF00) >> 8` for an arbitrary Python integer. */
  function HighByte(value: int): bv8 {
    ((value % 65536) / 256) as bv8
  }

  /** The register a threshold or cancellation setter writes for `value`. */
  function Split(value: int): Register {
    Register(LowByte(value), HighByte(value))
  }

  /** `data[0] + (data[1] << 8)`: the 16-bit value of a register, little-endian. */
  function Combine(r: Register): (v: nat)
    ensures v < 65536
  {
    r.lsb as int + r.msb as int * 256
  }

  /** Splitting then combining keeps the value modulo 2^16: thresholds wider than 16 bits
      lose their high bits, negative ones wrap. */
  lemma SplitCombine(value: int)
    ensures Combine(Split(value)) == value % 65536
  {
    var w := value % 65536;
    WrapLowByte(value);
    ByteRoundTrip(value % 256);
    ByteRoundTrip(w / 256);
    assert w == (w / 256) * 256 + w % 256;
  }

  /** The low byte of a value is the low byte of its low 16 bits. */
  lemma WrapLowByte(value: int)
    ensures value % 256 == (value % 65536) % 256
    ensures (value % 65536) / 256 < 256
  {
    var q, w := value / 65536, value % 65536;
    assert value == q * 65536 + w;
    assert q * 65536 == (q * 256) * 256;
    ModMultiple(w, q * 256);
  }

  lemma ModMultiple(w: int, q: int)
    ensures (q * 256 + w) % 256 == w % 256
  {
  }

  /** The byte whose value is `x`, counted up from zero: a bridge from numbers to bit
      vectors whose value follows by induction. */
  ghost function ByteOf(x: nat): bv8
    requires x < 256
  {
    if x == 0 then 0 else ByteOf(x - 1) + 1
  }

  lemma Increment(b: bv8)
    requires b as int < 255
    ensures (b + 1) as int == b as int + 1
  {
  }

  lemma {:induction false} ByteOfValue(x: nat)
    requires x < 256
    ensures ByteOf(x) as int == x
  {
    if x > 0 {
      ByteOfValue(x - 1);
      Increment(ByteOf(x - 1));
    }
  }

  lemma BitsRoundTrip(b: bv8)
    ensures (b as int) as bv8 == b
  {
  }

  /** A number below 256 survives the trip to a byte and back. */
  lemma ByteRoundTrip(x: int)
    requires 0 <= x < 256
    ensures (x as bv8) as int == x
  {
    ByteOfValue(x);
    BitsRoundTrip(ByteOf(x));
  }

  /** A value made of a low and a high byte splits back into them. */
  lemma DivModBytes(lo: int, hi: int)
    requires 0 <= lo < 256 && 0 <= hi < 256
    ensures (lo + hi * 256) % 65536 == lo + hi * 256
    ensures (lo + hi * 256) % 256 == lo && (lo + hi * 256) / 256 == hi
  {
  }

  /** Combining then splitting gives back the register: the getters invert the setters. */
  lemma CombineSplit(r: Register)
    ensures Split(Combine(r)) == r
  {
    DivModBytes(r.lsb as int, r.msb as int);
    BitsRoundTrip(r.lsb);
    BitsRoundTrip(r.msb);
  }

  /** With a complemented mask and a value inside the field, MaskOr sets the field to the
      value and leaves every other bit as it was. */
  lemma FieldWrite(b: bv8, field: bv8, value: bv8)
    requires value & !field == 0
    ensures MaskOr(b, !field, value) & field == value
    ensures MaskOr(b, !field, value) & !field == b & !field
  {
  }

  class Sensor {
    /** The I2C bus the device is on. */
    const bus: nat
    /** The device's I2C slave address. */
    const addr: int
    /** The device's registers. */
    var regs: RegisterFile
    /** I2C write messages sent to the device so far. */
    var frames: seq<seq<bv8>>

    ghost predicate Valid()
      reads this
    {
      Total(regs)
    }

    /** Opening the driver sets the address (0x60 when none is given), then programs the LED
        current, the IR duty cycle, the ambient integration time and the two proximity
        thresholds. */
    constructor (bus: nat, addr: Option<int>, initial: RegisterFile)
      requires Total(initial)
      ensures Valid()
      ensures this.bus == bus
      ensures this.addr == if addr.None? then DEFAULT_ADDR else addr.value
      ensures regs == StartupRegisters(initial)
      ensures frames == StartupFrames(initial)
    {
      this.bus := bus;
      this.addr := if addr.None? then DEFAULT_ADDR else addr.value;
      regs := initial;
      frames := [];
      new;
      ghost var led := UpperWritten(initial[PS_MS], LED_I_MASK, LED_140MA);
      ghost var duty := LowerWritten(initial[PS_CONF1], PS_DUTY_MASK, PS_DUTY_320);
      ghost var it := LowerWritten(initial[ALS_CONF], ALS_IT_MASK, ALS_IT_160MS);
      var _ := SetLEDCurrent(LED_140MA);
      assert frames == [Frame(PS_MS, led)];
      var _ := SetIRDutyCycle(PS_DUTY_320);
      assert regs[PS_CONF1] == duty;
      assert frames == [Frame(PS_MS, led), Frame(PS_CONF1, duty)];
      var _ := SetAmbientIntegrationTime(ALS_IT_160MS);
      assert regs[ALS_CONF] == it;
      assert frames == [Frame(PS_MS, led), Frame(PS_CONF1, duty), Frame(ALS_CONF, it)];
      var _ := SetProxLowThreshold(10);
      var _ := SetProxHighThreshold(1000);
      assert frames == [Frame(PS_MS, led), Frame(PS_CONF1, duty), Frame(ALS_CONF, it),
                        Frame(PS_THDL, Split(10)), Frame(PS_THDH, Split(1000))];
    }

    /** `read`: one combined I2C transfer, the command code out and two bytes back. */
    method Read(command: Command) returns (data: seq<bv8>)
      requires Valid()
      ensures data == [regs[command].lsb, regs[command].msb]
    {
      data := [regs[command].lsb, regs[command].msb];
    }

    /** `write`: one I2C write message of three bytes; the device stores the two data bytes
        in the register. Always reports success. */
    method Write(command: Command, lsb: bv8, msb: bv8) returns (ok: bool)
      requires Valid()
      modifies this
      ensures Valid()
      ensures regs == old(regs)[command := Register(lsb, msb)]
      ensures frames == old(frames) + [Frame(command, Register(lsb, msb))]
      ensures ok
    {
      frames := frames + [Frame(command, Register(lsb, msb))];
      regs := regs[command := Register(lsb, msb)];
      ok := true;
    }

    /** `writeLower`: read-modify-write of the low byte. */
    method WriteLower(command: Command, mask: bv8, value: bv8) returns (ok: bool)
      requires Valid()
      modifies this
      ensures Valid()
      ensures regs == old(regs)[command := LowerWritten(old(regs)[command], mask, value)]
      ensures frames == old(frames) + [Frame(command, regs[command])]
      ensures ok
    {
      var data := Read(command);
      var lsb := data[0] & mask;  // zero the bits to change
      lsb := lsb | value;
      ok := Write(command, lsb, data[1]);
    }

    /** `writeUpper`: read-modify-write of the high byte. */
    method WriteUpper(command: Command, mask: bv8, value: bv8) returns (ok: bool)
      requires Valid()
      modifies this
      ensures Valid()
      ensures regs == old(regs)[command := UpperWritten(old(regs)[command], mask, value)]
      ensures frames == old(frames) + [Frame(command, regs[command])]
      ensures ok
    {
      var data := Read(command);
      var msb := data[1] & mask;  // zero the bits to change
      msb := msb | value;
      ok := Write(command, data[0], msb);
    }

    method GetID() returns (data: seq<bv8>)
      requires Valid()
      ensures data == [regs[ID].lsb, regs[ID].msb]
    {
      data := Read(ID);
    }

    method GetProximity() returns (v: int)
      requires Valid()
      ensures v == Combine(regs[PS_DATA])
    {
      var data := Read(PS_DATA);
      v := data[0] as int + (data[1] as int) * 256;
    }

    method GetAmbient() returns (v: int)
      requires Valid()
      ensures v == Combine(regs[ALS_DATA])
    {
      var data := Read(ALS_DATA);
      v := data[0] as int + (data[1] as int) * 256;
    }

    method GetWhite() returns (v: int)
      requires Valid()
      ensures v == Combine(regs[WHITE_DATA])
    {
      var data := Read(WHITE_DATA);
      v := data[0] as int + (data[1] as int) * 256;
    }

    // Configuration setters: a masked write of one byte of one register.

    method SetIRDutyCycle(value: bv8) returns (ok: bool)
      requires Valid()
      modifies this
      ensures Valid()
      ensures regs == old(regs)[PS_CONF1 := LowerWritten(old(regs)[PS_CONF1], PS_DUTY_MASK, value)]
      ensures frames == old(frames) + [Frame(PS_CONF1, regs[PS_CONF1])]
      ensures ok
    {
      ok := WriteLower(PS_CONF1, PS_DUTY_MASK, value);
    }

    method SetProxInterruptPersistance(value: bv8) returns (ok: bool)
      requires Valid()
      modifies this
      ensures Valid()
      ensures regs == old(regs)[PS_CONF1 := LowerWritten(old(regs)[PS_CONF1], PS_PERS_MASK, value)]
      ensures frames == old(frames) + [Frame(PS_CONF1, regs[PS_CONF1])]
      ensures ok
    {
      ok := WriteLower(PS_CONF1, PS_PERS_MASK, value);
    }

    method SetAmbientInterruptPersistance(value: bv8) returns (ok: bool)
      requires Valid()
      modifies this
      ensures Valid()
      ensures regs == old(regs)[ALS_CONF := LowerWritten(old(regs)[ALS_CONF], ALS_PERS_MASK, value)]
      ensures frames == old(frames) + [Frame(ALS_CONF, regs[ALS_CONF])]
      ensures ok
    {
      ok := WriteLower(ALS_CONF, ALS_PERS_MASK, value);
    }

    method SetAmbientIntegrationTime(value: bv8) returns (ok: bool)
      requires Valid()
      modifies this
      ensures Valid()
      ensures regs == old(regs)[ALS_CONF := LowerWritten(old(regs)[ALS_CONF], ALS_IT_MASK, value)]
      ensures frames == old(frames) + [Frame(ALS_CONF, regs[ALS_CONF])]
      ensures ok
    {
      ok := WriteLower(ALS_CONF, ALS_IT_MASK, value);
    }

    method SetProxIntegrationTime(value: bv8) returns (ok: bool)
      requires Valid()
      modifies this
      ensures Valid()
      ensures regs == old(regs)[PS_CONF1 := LowerWritten(old(regs)[PS_CONF1], PS_IT_MASK, value)]
      ensures frames == old(frames) + [Frame(PS_CONF1, regs[PS_CONF1])]
      ensures ok
    {
      ok := WriteLower(PS_CONF1, PS_IT_MASK, value);
    }

    method EnableAmbientInterrupts() returns (ok: bool)
      requires Valid()
      modifies this
      ensures Valid()
      ensures regs == old(regs)[ALS_CONF := LowerWritten(old(regs)[ALS_CONF], ALS_INT_EN_MASK, ALS_INT_ENABLE)]
      ensures frames == old(frames) + [Frame(ALS_CONF, regs[ALS_CONF])]
      ensures ok
    {
      ok := WriteLower(ALS_CONF, ALS_INT_EN_MASK, ALS_INT_ENABLE);
    }

    method DisableAmbientInterrupts() returns (ok: bool)
      requires Valid()
      modifies this
      ensures Valid()
      ensures regs == old(regs)[ALS_CONF := LowerWritten(old(regs)[ALS_CONF], ALS_INT_EN_MASK, ALS_INT_DISABLE)]
      ensures frames == old(frames) + [Frame(ALS_CONF, regs[ALS_CONF])]
      ensures ok
    {
      ok := WriteLower(ALS_CONF, ALS_INT_EN_MASK, ALS_INT_DISABLE);
    }

    method PowerOnAmbient() returns (ok: bool)
      requires Valid()
      modifies this
      ensures Valid()
      ensures regs == old(regs)[ALS_CONF := LowerWritten(old(regs)[ALS_CONF], ALS_SD_MASK, ALS_SD_POWER_ON)]
      ensures frames == old(frames) + [Frame(ALS_CONF, regs[ALS_CONF])]
      ensures ok
    {
      ok := WriteLower(ALS_CONF, ALS_SD_MASK, ALS_SD_POWER_ON);
    }

    method PowerOffAmbient() returns (ok: bool)
      requires Valid()
      modifies this
      ensures Valid()
      ensures regs == old(regs)[ALS_CONF := LowerWritten(old(regs)[ALS_CONF], ALS_SD_MASK, ALS_SD_POWER_OFF)]
      ensures frames == old(frames) + [Frame(ALS_CONF, regs[ALS_CONF])]
      ensures ok
    {
      ok := WriteLower(ALS_CONF, ALS_SD_MASK, ALS_SD_POWER_OFF);
    }

    method PowerOnProximity() returns (ok: bool)
      requires Valid()
      modifies this
      ensures Valid()
      ensures regs == old(regs)[PS_CONF1 := LowerWritten(old(regs)[PS_CONF1], PS_SD_MASK, PS_SD_POWER_ON)]
      ensures frames == old(frames) + [Frame(PS_CONF1, regs[PS_CONF1])]
      ensures ok
    {
      ok := WriteLower(PS_CONF1, PS_SD_MASK, PS_SD_POWER_ON);
    }

    method PowerOffProximity() returns (ok: bool)
      requires Valid()
      modifies this
      ensures Valid()
      ensures regs == old(regs)[PS_CONF1 := LowerWritten(old(regs)[PS_CONF1], PS_SD_MASK, PS_SD_POWER_OFF)]
      ensures frames == old(frames) + [Frame(PS_CONF1, regs[PS_CONF1])]
      ensures ok
    {
      ok := WriteLower(PS_CONF1, PS_SD_MASK, PS_SD_POWER_OFF);
    }

    method EnableSmartPersistance() returns (ok: bool)
      requires Valid()
      modifies this
      ensures Valid()
      ensures regs == old(regs)[PS_CONF3 := LowerWritten(old(regs)[PS_CONF3], PS_SMART_PERS_MASK, PS_SMART_PERS_ENABLE)]
      ensures frames == old(frames) + [Frame(PS_CONF3, regs[PS_CONF3])]
      ensures ok
    {
      ok := WriteLower(PS_CONF3, PS_SMART_PERS_MASK, PS_SMART_PERS_ENABLE);
    }

    method DisableSmartPersistance() returns (ok: bool)
      requires Valid()
      modifies this
      ensures Valid()
      ensures regs == old(regs)[PS_CONF3 := LowerWritten(old(regs)[PS_CONF3], PS_SMART_PERS_MASK, PS_SMART_PERS_DISABLE)]
      ensures frames == old(frames) + [Frame(PS_CONF3, regs[PS_CONF3])]
      ensures ok
    {
      ok := WriteLower(PS_CONF3, PS_SMART_PERS_MASK, PS_SMART_PERS_DISABLE);
    }

    method EnableActiveForceMode() returns (ok: bool)
      requires Valid()
      modifies this
      ensures Valid()
      ensures regs == old(regs)[PS_CONF3 := LowerWritten(old(regs)[PS_CONF3], PS_AF_MASK, PS_AF_ENABLE)]
      ensures frames == old(frames) + [Frame(PS_CONF3, regs[PS_CONF3])]
      ensures ok
    {
      ok := WriteLower(PS_CONF3, PS_AF_MASK, PS_AF_ENABLE);
    }

    method DisableActiveForceMode() returns (ok: bool)
      requires Valid()
      modifies this
      ensures Valid()
      ensures regs == old(regs)[PS_CONF3 := LowerWritten(old(regs)[PS_CONF3], PS_AF_MASK, PS_AF_DISABLE)]
      ensures frames == old(frames) + [Frame(PS_CONF3, regs[PS_CONF3])]
      ensures ok
    {
      ok := WriteLower(PS_CONF3, PS_AF_MASK, PS_AF_DISABLE);
    }

    method TakeSingleProxMeasurement() returns (ok: bool)
      requires Valid()
      modifies this
      ensures Valid()
      ensures regs == old(regs)[PS_CONF3 := LowerWritten(old(regs)[PS_CONF3], PS_TRIG_MASK, PS_TRIG_TRIGGER)]
      ensures frames == old(frames) + [Frame(PS_CONF3, regs[PS_CONF3])]
      ensures ok
    {
      ok := WriteLower(PS_CONF3, PS_TRIG_MASK, PS_TRIG_TRIGGER);
    }

    method SetProxResolution(value: bv8) returns (ok: bool)
      requires Valid()
      modifies this
      ensures Valid()
      ensures regs == old(regs)[PS_CONF2 := UpperWritten(old(regs)[PS_CONF2], PS_HD_MASK, value)]
      ensures frames == old(frames) + [Frame(PS_CONF2, regs[PS_CONF2])]
      ensures ok
    {
      ok := WriteUpper(PS_CONF2, PS_HD_MASK, value);
    }

    method SetProxInterruptType(value: bv8) returns (ok: bool)
      requires Valid()
      modifies this
      ensures Valid()
      ensures regs == old(regs)[PS_CONF2 := UpperWritten(old(regs)[PS_CONF2], PS_INT_MASK, value)]
      ensures frames == old(frames) + [Frame(PS_CONF2, regs[PS_CONF2])]
      ensures ok
    {
      ok := WriteUpper(PS_CONF2, PS_INT_MASK, value);
    }

    method SetLEDCurrent(value: bv8) returns (ok: bool)
      requires Valid()
      modifies this
      ensures Valid()
      ensures regs == old(regs)[PS_MS := UpperWritten(old(regs)[PS_MS], LED_I_MASK, value)]
      ensures frames == old(frames) + [Frame(PS_MS, regs[PS_MS])]
      ensures ok
    {
      ok := WriteUpper(PS_MS, LED_I_MASK, value);
    }

    method EnableWhiteChannel() returns (ok: bool)
      requires Valid()
      modifies this
      ensures Valid()
      ensures regs == old(regs)[PS_MS := UpperWritten(old(regs)[PS_MS], WHITE_EN_MASK, WHITE_ENABLE)]
      ensures frames == old(frames) + [Frame(PS_MS, regs[PS_MS])]
      ensures ok
    {
      ok := WriteUpper(PS_MS, WHITE_EN_MASK, WHITE_ENABLE);
    }

    method DisableWhiteChannel() returns (ok: bool)
      requires Valid()
      modifies this
      ensures Valid()
      ensures regs == old(regs)[PS_MS := UpperWritten(old(regs)[PS_MS], WHITE_EN_MASK, WHITE_DISABLE)]
      ensures frames == old(frames) + [Frame(PS_MS, regs[PS_MS])]
      ensures ok
    {
      ok := WriteUpper(PS_MS, WHITE_EN_MASK, WHITE_DISABLE);
    }

    method EnableProxLogicMode() returns (ok: bool)
      requires Valid()
      modifies this
      ensures Valid()
      ensures regs == old(regs)[PS_MS := UpperWritten(old(regs)[PS_MS], PS_MS_MASK, PS_MS_ENABLE)]
      ensures frames == old(frames) + [Frame(PS_MS, regs[PS_MS])]
      ensures ok
    {
      ok := WriteUpper(PS_MS, PS_MS_MASK, PS_MS_ENABLE);
    }

    method DisableProxLogicMode() returns (ok: bool)
      requires Valid()
      modifies this
      ensures Valid()
      ensures regs == old(regs)[PS_MS := UpperWritten(old(regs)[PS_MS], PS_MS_MASK, PS_MS_DISABLE)]
      ensures frames == old(frames) + [Frame(PS_MS, regs[PS_MS])]
      ensures ok
    {
      ok := WriteUpper(PS_MS, PS_MS_MASK, PS_MS_DISABLE);
    }

    // Threshold and cancellation setters: both bytes of a register from an integer.

    method SetProxCancellation(value: int) returns (ok: bool)
      requires Valid()
      modifies this
      ensures Valid()
      ensures regs == old(regs)[PS_CANC := Split(value)]
      ensures frames == old(frames) + [Frame(PS_CANC, Split(value))]
      ensures ok
    {
      ok := Write(PS_CANC, LowByte(value), HighByte(value));
    }

    method SetALSHighThreshold(value: int) returns (ok: bool)
      requires Valid()
      modifies this
      ensures Valid()
      ensures regs == old(regs)[ALS_THDH := Split(value)]
      ensures frames == old(frames) + [Frame(ALS_THDH, Split(value))]
      ensures ok
    {
      ok := Write(ALS_THDH, LowByte(value), HighByte(value));
    }

    method SetALSLowThreshold(value: int) returns (ok: bool)
      requires Valid()
      modifies this
      ensures Valid()
      ensures regs == old(regs)[ALS_THDL := Split(value)]
      ensures frames == old(frames) + [Frame(ALS_THDL, Split(value))]
      ensures ok
    {
      ok := Write(ALS_THDL, LowByte(value), HighByte(value));
    }

    method SetProxHighThreshold(value: int) returns (ok: bool)
      requires Valid()
      modifies this
      ensures Valid()
      ensures regs == old(regs)[PS_THDH := Split(value)]
      ensures frames == old(frames) + [Frame(PS_THDH, Split(value))]
      ensures ok
    {
      ok := Write(PS_THDH, LowByte(value), HighByte(value));
    }

    method SetProxLowThreshold(value: int) returns (ok: bool)
      requires Valid()
      modifies this
      ensures Valid()
      ensures regs == old(regs)[PS_THDL := Split(value)]
      ensures frames == old(frames) + [Frame(PS_THDL, Split(value))]
      ensures ok
    {
      ok := Write(PS_THDL, LowByte(value), HighByte(value));
    }
  }


  /** The registers after the driver's start-up sequence. */
  function StartupRegisters(initial: RegisterFile): RegisterFile
    requires Total(initial)
  {
    var r1 := initial[PS_MS := UpperWritten(initial[PS_MS], LED_I_MASK, LED_140MA)];
    var r2 := r1[PS_CONF1 := LowerWritten(r1[PS_CONF1], PS_DUTY_MASK, PS_DUTY_320)];
    var r3 := r2[ALS_CONF := LowerWritten(r2[ALS_CONF], ALS_IT_MASK, ALS_IT_160MS)];
    var r4 := r3[PS_THDL := Split(10)];
    r4[PS_THDH := Split(1000)]
  }

  /** The I2C write messages of the start-up sequence, in order. */
  function StartupFrames(initial: RegisterFile): seq<seq<bv8>>
    requires Total(initial)
  {
    var led := UpperWritten(initial[PS_MS], LED_I_MASK, LED_140MA);
    var duty := LowerWritten(initial[PS_CONF1], PS_DUTY_MASK, PS_DUTY_320);
    var it := LowerWritten(initial[ALS_CONF], ALS_IT_MASK, ALS_IT_160MS);
    [Frame(PS_MS, led), Frame(PS_CONF1, duty), Frame(ALS_CONF, it), Frame(PS_THDL, Split(10)), Frame(PS_THDH, Split(1000))]
  }

  /** What start-up programs: LED current 140 mA, IR duty cycle 1/320 and ambient integration
      time 160 ms, each field alone. */
  lemma StartupConfiguration(initial: RegisterFile)
    requires Total(initial)
    ensures var regs := StartupRegisters(initial);
      && regs[PS_MS].msb & 0x07 == LED_140MA && regs[PS_MS].msb & !0x07 == initial[PS_MS].msb & !0x07
      && regs[PS_MS].lsb == initial[PS_MS].lsb
      && regs[PS_CONF1].lsb & 0xC0 == PS_DUTY_320 && regs[PS_CONF1].lsb & !0xC0 == initial[PS_CONF1].lsb & !0xC0
      && regs[PS_CONF1].msb == initial[PS_CONF1].msb
      && regs[ALS_CONF].lsb & 0xC0 == ALS_IT_160MS && regs[ALS_CONF].lsb & !0xC0 == initial[ALS_CONF].lsb & !0xC0
      && regs[ALS_CONF].msb == initial[ALS_CONF].msb
  {
    var regs := StartupRegisters(initial);
    assert regs[PS_MS] == UpperWritten(initial[PS_MS], LED_I_MASK, LED_140MA);
    assert regs[PS_CONF1] == LowerWritten(initial[PS_CONF1], PS_DUTY_MASK, PS_DUTY_320);
    assert regs[ALS_CONF] == LowerWritten(initial[ALS_CONF], ALS_IT_MASK, ALS_IT_160MS);
    FieldWrite(initial[PS_MS].msb, 0x07, LED_140MA);
    FieldWrite(initial[PS_CONF1].lsb, 0xC0, PS_DUTY_320);
    FieldWrite(initial[ALS_CONF].lsb, 0xC0, ALS_IT_160MS);
  }

  /** Start-up sets the proximity thresholds to 10 and 1000 (0x03E8) and leaves every register
      it does not program as it was. */
  lemma StartupThresholds(initial: RegisterFile)
    requires Total(initial)
    ensures var regs := StartupRegisters(initial);
      && Total(regs)
      && regs[PS_THDL] == Register(10, 0) && regs[PS_THDH] == Register(0xE8, 0x03)
      && forall c: Command :: c !in {ALS_CONF, PS_CONF1, PS_MS, PS_THDL, PS_THDH} ==> regs[c] == initial[c]
  {
    StartupSplits();
  }

  /** The two thresholds start-up programs, as register bytes. */
  lemma StartupSplits()
    ensures Split(10) == Register(10, 0) && Split(1000) == Register(0xE8, 0x03)
  {
    assert 10 % 256 == 10 && (10 % 65536) / 256 == 0;
    assert 1000 % 256 == 0xE8 && (1000 % 65536) / 256 == 3;
  }

  /** Any of the ambient integration times changes bits 6-7 of the ALS_CONF low byte to that
      time and nothing else in the register. */
  lemma AmbientIntegrationTimeOnlyChangesItsField(r: Register, value: bv8)
    requires value in {ALS_IT_80MS, ALS_IT_160MS, ALS_IT_320MS, ALS_IT_640MS}
    ensures var r' := LowerWritten(r, ALS_IT_MASK, value);
      r'.lsb & 0xC0 == value && r'.lsb & 0x3F == r.lsb & 0x3F && r'.msb == r.msb
  {
    FieldWrite(r.lsb, 0xC0, value);
  }

  /** PS_CONF1 and PS_CONF2 share command code 3: the IR duty cycle lives in its low byte and
      the proximity resolution in its high byte, so neither setter disturbs the other's byte
      and the two commute. */
  lemma SharedConfigRegisterBytesIndependent(r: Register, duty: bv8, resolution: bv8)
    ensures var both := UpperWritten(LowerWritten(r, PS_DUTY_MASK, duty), PS_HD_MASK, resolution);
      && both == LowerWritten(UpperWritten(r, PS_HD_MASK, resolution), PS_DUTY_MASK, duty)
      && both.lsb == LowerWritten(r, PS_DUTY_MASK, duty).lsb
      && both.msb == UpperWritten(r, PS_HD_MASK, resolution).msb
  {
  }

  /** As written, the ambient-interrupt mask is not complemented: enabling leaves the ALS_CONF
      low byte at exactly 0x02, and disabling keeps only bit 1, clearing the integration time,
      the persistence and the shutdown bit. */
  lemma AmbientInterruptMaskClearsOtherBits(r: Register)
    ensures LowerWritten(r, ALS_INT_EN_MASK, ALS_INT_ENABLE).lsb == 0x02
    ensures LowerWritten(r, ALS_INT_EN_MASK, ALS_INT_DISABLE).lsb == r.lsb & 0x02
  {
  }

  /** As written, the smart-persistence setter clears bit 4 but sets bit 1, and the single
      measurement trigger sets bit 2 but clears bit 3 (active force mode). */
  lemma PsConf3MaskValueMismatch(r: Register)
    ensures var on := LowerWritten(r, PS_SMART_PERS_MASK, PS_SMART_PERS_ENABLE).lsb;
      on & 0x10 == 0 && on & 0x02 == 0x02
    ensures var t := LowerWritten(r, PS_TRIG_MASK, PS_TRIG_TRIGGER).lsb;
      t & 0x08 == 0 && t & 0x04 == 0x04
  {
  }

  /** The shutdown bit of the ALS_CONF low byte after powering the ambient sensor on or off;
      the other bits keep their values. */
  lemma AmbientShutdownBit(r: Register, on: bool)
    ensures var r' := LowerWritten(r, ALS_SD_MASK, if on then ALS_SD_POWER_ON else ALS_SD_POWER_OFF);
      && r'.lsb & 0x01 == (if on then 0 else 1)
      && r'.lsb & !0x01 == r.lsb & !0x01
      && r'.msb == r.msb
  {
  }
}
