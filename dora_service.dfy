/** The DORA subsystem: two VCNL4040 ambient-light sensors behind one service object, with
    the telemetry the service reports and the mutations it accepts (power, integration time,
    raw register commands). */
module DoraService {

  import opened Wrappers
  import opened Text
  import opened Vcnl4040

  const APP_NAME: string := "dora-service"

  /** The first ID byte a connected VCNL4040 reports. */
  const DEVICE_ID: bv8 := 0x86

  datatype Telemetry = Telemetry(
    connected: bool,
    powerOn: bool,
    integrationTime: int,
    sensor1Value: int,
    sensor2Value: int)

  /** A mutation's outcome together with the telemetry it left behind. */
  datatype Status = Status(status: bool, telemetry: Telemetry)

  /** `state` is 1 when powered, 0 otherwise; `uptime` is seconds since the service started. */
  datatype PowerState = PowerState(state: int, uptime: int)

  datatype RawCommandResponse = RawCommandResponse(status: bool, data: int)

  /** What a raw command comes to: a response, or the ValueError Python raises when a
      value outside 0..255 is packed into a byte string. */
  datatype RawOutcome = Answered(response: RawCommandResponse) | ValueError

  /** A value Python's `bytes` and `bytearray` accept as one element. */
  predicate IsByte(v: int)
  {
    0 <= v < 256
  }

  /** Integration time selectors 0..3 and the ALS_IT flags they stand for. */
  const INTEGRATION_FLAGS: map<int, bv8> :=
    map[0 := ALS_IT_80MS, 1 := ALS_IT_160MS, 2 := ALS_IT_320MS, 3 := ALS_IT_640MS]

  /** The ALS_IT flag for an integration time selector; 80 ms for anything outside 0..3. */
  function IntegrationFlag(t: int): (f: bv8)
    ensures f in {ALS_IT_80MS, ALS_IT_160MS, ALS_IT_320MS, ALS_IT_640MS}
    ensures !(0 <= t <= 3) ==> f == ALS_IT_80MS
  {
    if t in INTEGRATION_FLAGS then INTEGRATION_FLAGS[t] else ALS_IT_80MS
  }

  /** The selector an ALS_IT flag stands for: 0, 1, 2, 3 for 80, 160, 320, 640 ms. */
  function IntegrationSelector(f: bv8): int {
    if f == ALS_IT_160MS then 1
    else if f == ALS_IT_320MS then 2
    else if f == ALS_IT_640MS then 3
    else 0
  }

  /** The table: 0 -> 0x00, 1 -> 0x80, 2 -> 0x40, 3 -> 0xC0. */
  lemma IntegrationFlagTable()
    ensures IntegrationFlag(0) == 0x00 && IntegrationFlag(1) == 0x80
    ensures IntegrationFlag(2) == 0x40 && IntegrationFlag(3) == 0xC0
  {
    assert 0 in INTEGRATION_FLAGS && 1 in INTEGRATION_FLAGS;
    assert 2 in INTEGRATION_FLAGS && 3 in INTEGRATION_FLAGS;
  }

  /** On the valid selectors the lookup loses nothing: the selector can be read back from
      the flag, so distinct selectors give distinct flags. */
  lemma IntegrationFlagRoundTrip(t: int)
    requires 0 <= t <= 3
    ensures IntegrationSelector(IntegrationFlag(t)) == t
  {
    IntegrationFlagTable();
  }

  /** Every flag the lookup produces fits the two-bit ALS_IT field. */
  lemma IntegrationFlagInField(t: int)
    ensures IntegrationFlag(t) & !0xC0 == 0
  {
  }

  const CONFIG_HEAD: string := "name=" + APP_NAME + ", bus1="
  const CONFIG_MID: string := ", bus2="

  /** `'name={}, bus1={}, bus2={}'` with the service name and the two bus numbers. */
  function ConfigString(bus1: nat, bus2: nat): string {
    CONFIG_HEAD + Decimal(bus1) + CONFIG_MID + Decimal(bus2)
  }

  /** Reads the two bus numbers back out of a configuration string. */
  function ParseConfig(s: string): Option<(nat, nat)> {
    if |s| < |CONFIG_HEAD| || s[..|CONFIG_HEAD|] != CONFIG_HEAD then None
    else
      var t := s[|CONFIG_HEAD|..];
      var n := LeadingDigits(t);
      var u := t[n..];
      if n == 0 || |u| < |CONFIG_MID| || u[..|CONFIG_MID|] != CONFIG_MID then None
      else
        var d := u[|CONFIG_MID|..];
        if d == [] || !AllDigits(d) then None
        else Some((DecimalValue(t[..n]), DecimalValue(d)))
  }

  /** The configuration string carries both bus numbers recoverably. */
  lemma ConfigRoundTrip(bus1: nat, bus2: nat)
    ensures ParseConfig(ConfigString(bus1, bus2)) == Some((bus1, bus2))
  {
    var s := ConfigString(bus1, bus2);
    var d1, d2 := Decimal(bus1), Decimal(bus2);
    assert s[..|CONFIG_HEAD|] == CONFIG_HEAD;
    var t := s[|CONFIG_HEAD|..];
    assert t == d1 + (CONFIG_MID + d2);
    LeadingDigitsOfDecimal(d1, CONFIG_MID + d2);
    assert t[..|d1|] == d1;
    var u := t[|d1|..];
    assert u == CONFIG_MID + d2;
    assert u[..|CONFIG_MID|] == CONFIG_MID;
    assert u[|CONFIG_MID|..] == d2;
    DecimalRoundTrip(bus1);
    DecimalRoundTrip(bus2);
  }

  /** Both sensors answer the get-ID command with first byte 0x86. */
  predicate BothConnected(regs1: RegisterFile, regs2: RegisterFile)
    requires Total(regs1) && Total(regs2)
  {
    regs1[ID].lsb == DEVICE_ID && regs2[ID].lsb == DEVICE_ID
  }

  /** The service's own initialisation of one sensor: proximity off, ambient off, ambient
      integration time from selector 0. */
  function PowerDownRegisters(regs: RegisterFile): RegisterFile
    requires Total(regs)
  {
    var r1 := regs[PS_CONF1 := LowerWritten(regs[PS_CONF1], PS_SD_MASK, PS_SD_POWER_OFF)];
    var r2 := r1[ALS_CONF := LowerWritten(r1[ALS_CONF], ALS_SD_MASK, ALS_SD_POWER_OFF)];
    r2[ALS_CONF := LowerWritten(r2[ALS_CONF], ALS_IT_MASK, IntegrationFlag(0))]
  }

  /** The write messages of the same sequence. */
  function PowerDownFrames(regs: RegisterFile): seq<seq<bv8>>
    requires Total(regs)
  {
    var p := LowerWritten(regs[PS_CONF1], PS_SD_MASK, PS_SD_POWER_OFF);
    var a := LowerWritten(regs[ALS_CONF], ALS_SD_MASK, ALS_SD_POWER_OFF);
    var i := LowerWritten(a, ALS_IT_MASK, IntegrationFlag(0));
    [Frame(PS_CONF1, p), Frame(ALS_CONF, a), Frame(ALS_CONF, i)]
  }

  /** The registers of a sensor after the driver's start-up and the service's initialisation. */
  function ServiceStartRegisters(initial: RegisterFile): RegisterFile
    requires Total(initial)
  {
    PowerDownRegisters(StartupRegisters(initial))
  }

  /** Every write message sent to a sensor while the service starts, in order. */
  function ServiceStartFrames(initial: RegisterFile): seq<seq<bv8>>
    requires Total(initial)
  {
    StartupFrames(initial) + PowerDownFrames(StartupRegisters(initial))
  }

  /** Powers one sensor down as the service does when it starts. */
  method PowerDown(sensor: Sensor)
    requires sensor.Valid()
    modifies sensor
    ensures sensor.Valid()
    ensures sensor.regs == PowerDownRegisters(old(sensor.regs))
    ensures sensor.frames == old(sensor.frames) + PowerDownFrames(old(sensor.regs))
  {
    var _ := sensor.PowerOffProximity();
    var _ := sensor.PowerOffAmbient();
    var _ := sensor.SetAmbientIntegrationTime(IntegrationFlag(0));
  }

  /** After initialisation both parts of the sensor are shut down, the ambient integration
      time is 80 ms and the ID register is as the device reported it. */
  lemma ServiceStartShutsDown(initial: RegisterFile)
    requires Total(initial)
    ensures var regs := ServiceStartRegisters(initial);
      && Total(regs)
      && regs[PS_CONF1].lsb & 0x01 == 0x01
      && regs[ALS_CONF].lsb & 0x01 == 0x01
      && regs[ALS_CONF].lsb & 0xC0 == ALS_IT_80MS
      && regs[ID] == initial[ID]
  {
    StartupThresholds(initial);
    var r0 := StartupRegisters(initial);
    assert r0[ID] == initial[ID];
    assert ServiceStartRegisters(initial) == PowerDownRegisters(r0);
    var a := LowerWritten(r0[ALS_CONF], ALS_SD_MASK, ALS_SD_POWER_OFF);
    var i := LowerWritten(a, ALS_IT_MASK, IntegrationFlag(0));
    IntegrationFlagTable();
    assert ServiceStartRegisters(initial)[ALS_CONF] == i;
    assert i.lsb == a.lsb & ALS_IT_MASK;
  }

  /** Start-up leaves the ID register as the device reported it. */
  lemma StartupKeepsID(initial: RegisterFile)
    requires Total(initial)
    ensures Total(StartupRegisters(initial)) && StartupRegisters(initial)[ID] == initial[ID]
  {
    StartupThresholds(initial);
  }

  class DoraSubsystem {
    const sensor1: Sensor
    const sensor2: Sensor
    var telemetry: Telemetry

    ghost predicate Valid()
      reads this, sensor1, sensor2
    {
      sensor1 != sensor2 && sensor1.Valid() && sensor2.Valid()
    }

    /** Opens both sensors at the default address, records whether both answer, and puts
        both into the initial state: proximity and ambient off, integration selector 0. */
    constructor (bus1: nat, bus2: nat, initial1: RegisterFile, initial2: RegisterFile)
      requires Total(initial1) && Total(initial2)
      ensures Valid() && fresh(sensor1) && fresh(sensor2)
      ensures sensor1.bus == bus1 && sensor1.addr == DEFAULT_ADDR
      ensures sensor2.bus == bus2 && sensor2.addr == DEFAULT_ADDR
      ensures telemetry == Telemetry(BothConnected(initial1, initial2), false, 0, 0, 0)
      ensures sensor1.regs == ServiceStartRegisters(initial1)
      ensures sensor2.regs == ServiceStartRegisters(initial2)
      ensures sensor1.frames == ServiceStartFrames(initial1)
      ensures sensor2.frames == ServiceStartFrames(initial2)
    {
      sensor1 := new Sensor(bus1, None, initial1);
      sensor2 := new Sensor(bus2, None, initial2);
      new;
      StartupKeepsID(initial1);
      StartupKeepsID(initial2);
      var connected := Noop();
      telemetry := Telemetry(connected, false, 0, 0, 0);
      PowerDown(sensor1);
      PowerDown(sensor2);
    }

    /** The configuration string: service name and both bus numbers. */
    function GetConfig(): (s: string)
      ensures ParseConfig(s) == Some((sensor1.bus, sensor2.bus))
    {
      ConfigRoundTrip(sensor1.bus, sensor2.bus);
      ConfigString(sensor1.bus, sensor2.bus)
    }

    /** The power state: 1 exactly when the telemetry says powered. The uptime is supplied
        by the caller, as the service computes it from the wall clock. */
    function GetPower(uptime: int): (p: PowerState)
      reads this
      ensures p.state == 1 <==> telemetry.powerOn
      ensures p.state == 0 <==> !telemetry.powerOn
      ensures p.uptime == uptime
    {
      PowerState(if telemetry.powerOn == true then 1 else 0, uptime)
    }

    /** Sends get-ID to each sensor; true exactly when both report 0x86. */
    method Noop() returns (connected: bool)
      requires Valid()
      ensures connected <==> BothConnected(sensor1.regs, sensor2.regs)
    {
      var id1 := sensor1.GetID();
      var id2 := sensor2.GetID();
      var sensor1Connected := if id1[0] == DEVICE_ID then true else false;
      var sensor2Connected := if id2[0] == DEVICE_ID then true else false;
      connected := if sensor1Connected && sensor2Connected then true else false;
    }

    /** A raw register command. Anything but sensor 1, or a flag other than 0 (read) and
        1 (write), is refused with (false, 0), whatever the other arguments are. A read
        answers the register's little-endian value; a write answers the write's status.
        Sensor 2 is never addressed. A command code outside one byte, or (for a write) a
        data byte outside one byte, cannot be packed into the I2C message: the call ends
        in a ValueError and the sensor is not touched. */
    method CommandRaw(sensor: int, command: int, flag: int, lsb: int, msb: int)
      returns (r: RawOutcome)
      requires Valid()
      modifies sensor1
      ensures Valid()
      ensures !(sensor == 1 && (flag == 0 || flag == 1)) ==>
        r == Answered(RawCommandResponse(false, 0)) && unchanged(sensor1)
      ensures sensor == 1 && (flag == 0 || flag == 1) && !IsByte(command) ==>
        r == ValueError && unchanged(sensor1)
      ensures sensor == 1 && flag == 1 && IsByte(command) && !(IsByte(lsb) && IsByte(msb)) ==>
        r == ValueError && unchanged(sensor1)
      ensures sensor == 1 && flag == 0 && IsByte(command) ==>
        r == Answered(RawCommandResponse(true, Combine(old(sensor1.regs)[command]))) && unchanged(sensor1)
      ensures sensor == 1 && flag == 1 && IsByte(command) && IsByte(lsb) && IsByte(msb) ==>
        && r == Answered(RawCommandResponse(true, 0))
        && sensor1.regs == old(sensor1.regs)[command := Register(lsb as bv8, msb as bv8)]
        && sensor1.frames == old(sensor1.frames) + [Frame(command, Register(lsb as bv8, msb as bv8))]
    {
      if !(sensor == 1 || sensor == 1) {
        return Answered(RawCommandResponse(false, 0));
      }
      if !(flag == 0 || flag == 1) {
        return Answered(RawCommandResponse(false, 0));
      }
      var device := sensor1;
      var status := true;
      var data := 0;
      if !IsByte(command) {
        return ValueError;  // bytes([command])
      }
      if flag == 0 {
        var bytes := device.Read(command);
        data := bytes[0] as int + bytes[1] as int * 256;
      } else {
        if !(IsByte(lsb) && IsByte(msb)) {
          return ValueError;  // bytearray([command, lsb, msb])
        }
        status := device.Write(command, lsb as bv8, msb as bv8);
      }
      r := Answered(RawCommandResponse(status, data));
    }

    /** When connected, reads both ambient values into the telemetry; otherwise nothing. */
    method Refresh()
      requires Valid()
      modifies this
      ensures Valid()
      ensures old(telemetry).connected ==> telemetry == old(telemetry).(
        sensor1Value := Combine(sensor1.regs[ALS_DATA]),
        sensor2Value := Combine(sensor2.regs[ALS_DATA]))
      ensures !old(telemetry).connected ==> telemetry == old(telemetry)
    {
      if telemetry.connected {
        var v1 := sensor1.GetAmbient();
        var v2 := sensor2.GetAmbient();
        telemetry := telemetry.(sensor1Value := v1, sensor2Value := v2);
      }
    }

    /** Stores the power flag and powers the ambient part of both sensors on or off by its
        shutdown bit. Always succeeds. */
    method SetPower(powerOn: bool) returns (s: Status)
      requires Valid()
      modifies this, sensor1, sensor2
      ensures Valid()
      ensures telemetry == old(telemetry).(powerOn := powerOn)
      ensures s == Status(true, telemetry)
      ensures var v := if powerOn then ALS_SD_POWER_ON else ALS_SD_POWER_OFF;
        && sensor1.regs == old(sensor1.regs)[ALS_CONF := LowerWritten(old(sensor1.regs)[ALS_CONF], ALS_SD_MASK, v)]
        && sensor2.regs == old(sensor2.regs)[ALS_CONF := LowerWritten(old(sensor2.regs)[ALS_CONF], ALS_SD_MASK, v)]
        && sensor1.frames == old(sensor1.frames) + [Frame(ALS_CONF, sensor1.regs[ALS_CONF])]
        && sensor2.frames == old(sensor2.frames) + [Frame(ALS_CONF, sensor2.regs[ALS_CONF])]
      ensures sensor1.regs[ALS_CONF].lsb & 0x01 == (if powerOn then 0 else 1)
      ensures sensor2.regs[ALS_CONF].lsb & 0x01 == (if powerOn then 0 else 1)
    {
      telemetry := telemetry.(powerOn := powerOn);
      if powerOn {
        var _ := sensor1.PowerOnAmbient();
        var _ := sensor2.PowerOnAmbient();
      } else {
        var _ := sensor1.PowerOffAmbient();
        var _ := sensor2.PowerOffAmbient();
      }
      AmbientShutdownBit(old(sensor1.regs)[ALS_CONF], powerOn);
      AmbientShutdownBit(old(sensor2.regs)[ALS_CONF], powerOn);
      s := Status(true, telemetry);
    }

    /** A selector outside 0..3 is refused and changes nothing. A valid one is stored and
        its ALS_IT flag written to both sensors. */
    method SetIntegrationTime(t: int) returns (s: Status)
      requires Valid()
      modifies this, sensor1, sensor2
      ensures Valid()
      ensures (t > 3 || t < 0) ==>
        && s == Status(false, telemetry)
        && telemetry == old(telemetry)
        && unchanged(sensor1) && unchanged(sensor2)
      ensures 0 <= t <= 3 ==>
        && telemetry == old(telemetry).(integrationTime := t)
        && s == Status(true, telemetry)
        && sensor1.regs == old(sensor1.regs)[ALS_CONF := LowerWritten(old(sensor1.regs)[ALS_CONF], ALS_IT_MASK, IntegrationFlag(t))]
        && sensor2.regs == old(sensor2.regs)[ALS_CONF := LowerWritten(old(sensor2.regs)[ALS_CONF], ALS_IT_MASK, IntegrationFlag(t))]
        && sensor1.frames == old(sensor1.frames) + [Frame(ALS_CONF, sensor1.regs[ALS_CONF])]
        && sensor2.frames == old(sensor2.frames) + [Frame(ALS_CONF, sensor2.regs[ALS_CONF])]
        && sensor1.regs[ALS_CONF].lsb & 0xC0 == IntegrationFlag(t)
        && sensor2.regs[ALS_CONF].lsb & 0xC0 == IntegrationFlag(t)
    {
      if t > 3 || t < 0 {
        return Status(false, telemetry);
      }
      telemetry := telemetry.(integrationTime := t);
      var _ := sensor1.SetAmbientIntegrationTime(IntegrationFlag(telemetry.integrationTime));
      var _ := sensor2.SetAmbientIntegrationTime(IntegrationFlag(telemetry.integrationTime));
      FieldWrite(old(sensor1.regs)[ALS_CONF].lsb, 0xC0, IntegrationFlag(t));
      FieldWrite(old(sensor2.regs)[ALS_CONF].lsb, 0xC0, IntegrationFlag(t));
      s := Status(true, telemetry);
    }
  }
}
