# DORA flight software core, modelled in Dafny

This project models the sequential logic of the DORA experiment's flight software. It proves properties of that model in five parts.

- **Radio serial transport** (`radio_service.dfy`, module `RadioService`). These are the `read` and `write` callbacks of the radio service. The serial port is shared behind a lock.
  - The port is a class `Channel`. It holds a script of replies to future read attempts, a log of the bytes it accepted, and a ghost trace of lock operations (Acquire, Release, Sleep).
  - `read` is proved against a specification function `ReadSpec`, which is built from `Attempt`, one holding of the lock.
  - Messages have no delimiter. A chunk shorter than 48 bytes ends a message. So does a read timeout once bytes are buffered. A timeout with nothing buffered releases the lock, sleeps and retries.
- **VCNL4040 driver** (`vcnl4040.dfy`, module `Vcnl4040`). The device is a class `Sensor`. It holds the register map (command code to low and high byte) and the log of 3-byte I2C write messages sent to it.
  - Every setter is a masked read-modify-write of one byte, or a 16-bit split into two bytes. The getters put the two bytes back together.
- **DORA subsystem** (`dora_service.dfy`, module `DoraService`). A class `DoraSubsystem` owns two sensors and the telemetry record. Its parts:
  - the start-up sequence;
  - the integration-flag lookup;
  - `setIntegrationTime`, which checks its argument's range first;
  - `setPower`, `commandRaw`, `noop` and `refresh`;
  - the configuration string and the power state.
- **System information parsers** (`system_info.dfy`, module `SystemInfo`). These parse `/proc/uptime`, `/proc/stat`, `/proc/meminfo` and the output of `df -k`, given as text. Each parser is a function. `disk_usage_all` is a method whose loop is proved against the specification function `DiskUsage`.
  - Round-trip lemmas show that text is read back as the values it renders when its fields are separated by runs of one or more spaces of any width. The kernel's `cpu` line (two spaces after the label) and `df`'s padded columns are laid out this way.
- **Vector helpers** (`vector_math.dfy`, module `VectorMath`). `vec_add`, `vec_sub` and `vec_sum` are loop methods over unbounded integers, with `zip` truncation.

Two small modules support these. `Wrappers` holds `Option` and `Result`. `Text` holds ASCII decimal digits and the decimal rendering of naturals.

A careful `write` would compare the byte count the port reports with the message length, and report an error when fewer bytes were taken. The code does not do this: it returns `Ok(())` whatever count comes back. The model follows the code. `Channel.Write` returns `Written` for any count, and the port log receives only the bytes the port reported taking.

Two further quirks of the code are modelled as written:
- `commandRaw` tests `sensor == 1` twice, and addresses sensor 1 only.
- The ambient-interrupt mask and the PS_CONF3 masks do not match their values. The lemmas `AmbientInterruptMaskClearsOtherBits` and `PsConf3MaskValueMismatch` state the resulting behaviour.

## Model

| member | source | states |
|---|---|---|
| RadioService.Attempt | dora-radio-service/src/main.rs:89-114 | One holding of the lock consumes at least one event when any remain. It ends without returning only when the packet is empty and the next event is a timeout, and that timeout is all it consumes |
| RadioService.ReadSpec | dora-radio-service/src/main.rs:73-120 | Definition of the outer loop: each holding runs Attempt from an empty packet; a Retry adds Acquire, Release, Sleep and starts again on the rest, and a Finished holding adds Acquire, Release and returns. Its properties are ReadSpecShape, ReadReceived, ReadOfMessage and ReadFailureSurfaces |
| RadioService.Channel.constructor | dora-radio-service/src/main.rs:41-44 | A fresh shared port: the lock is free, nothing has been written, and the read script is the one given |
| RadioService.Channel.Write | dora-radio-service/src/main.rs:52-65 | Exactly one Acquire/Release pair. The port log grows by the bytes the port reports taking. A port error is returned as WriteFailed of that kind. Any count returns Written. The read script is untouched |
| RadioService.Channel.Read | dora-radio-service/src/main.rs:73-120 | The result, the events consumed and the lock trace are those of ReadSpec on the script. The lock discipline is kept and nothing is written |
| RadioService.Channel.HoldAndRead | dora-radio-service/src/main.rs:77-115 | The locked block: one Acquire and one Release around an inner loop whose outcome is Attempt on the script with an empty packet |
| RadioService.FullWritesConcatenate | dora-radio-service/src/main.rs:53-63 | Writes issued one after another, each accepted in full, leave the messages on the wire concatenated in call order |
| RadioService.MixedWritesConcatenate | dora-radio-service/src/main.rs:53-63 | Writes the port either takes in full or rejects leave on the wire exactly the concatenation of the messages taken in full, in call order. A rejected write adds nothing |
| RadioService.ReadSpecShape | dora-radio-service/src/main.rs:74-118 | A read is some leading empty timeouts, each costing Acquire, Release, Sleep. Then comes one final holding that starts from an empty packet and alone decides the result, so no message spans two holdings |
| RadioService.ReadLogDisciplined | dora-radio-service/src/main.rs:77-118 | Every lock trace a read produces is legal: the lock is never taken twice, never held while sleeping, and is free at the end |
| RadioService.AttemptReceived | dora-radio-service/src/main.rs:89-110 | A message returned by one holding is the starting packet followed by the bytes of the consumed chunks, in order. Every chunk but the last was full. The last event was a short chunk or a timeout with bytes buffered |
| RadioService.ReadReceived | dora-radio-service/src/main.rs:89-101 | A message returned by a read is the in-order concatenation of the chunks consumed after the last back-off, each of them full except the last |
| RadioService.FailureSurfaces | dora-radio-service/src/main.rs:103-111 | A non-timeout error reached after full chunks ends the holding with that error and consumes nothing after it |
| RadioService.AttemptFailed | dora-radio-service/src/main.rs:103-111 | Conversely, a holding fails only at a non-timeout error event, after full chunks |
| RadioService.ReadFailureSurfaces | dora-radio-service/src/main.rs:103-111 | For a whole read, a non-timeout error after the leading timeouts and full chunks is returned as ReadFailed, never as a message, and the events after it are left unread |
| RadioService.FullChunkIsNotABoundary | dora-radio-service/src/main.rs:91-101 | A 48-byte chunk followed by a short one is read as one message holding both |
| RadioService.FiftyByteMessage | dora-radio-service/src/main.rs:91-101 | 48 bytes then 2 bytes give one 50-byte message |
| RadioService.TimeoutFlushesBuffer | dora-radio-service/src/main.rs:104-106 | A timeout with any non-empty packet buffered returns that packet unchanged and consumes no further event |
| RadioService.ReceivedAttempt | dora-radio-service/src/main.rs:89-106 | Conversely to AttemptReceived: any full chunks followed by a short chunk, or by a timeout once bytes are buffered, are returned by one holding as the packet followed by their bytes, leaving the rest unread |
| RadioService.ReadOfMessage | dora-radio-service/src/main.rs:73-120 | Conversely to ReadReceived: j empty timeouts, then full chunks and an event that ends the message, make a read back off j times and return exactly those chunks' bytes, leaving the rest unread |
| RadioService.EmptyTimeoutBacksOff | dora-radio-service/src/main.rs:107-118 | A timeout with nothing buffered does not return: Acquire, Release, Sleep, then the read starts over on the next event |
| RadioService.ZeroByteReadEndsMessage | dora-radio-service/src/main.rs:92-100 | Ok(0) counts as a short read and returns the packet at once, which is empty at the start of a holding |
| Vcnl4040.Combine | dora-sensor-service/service/hw_vcnl4040.py:140-152 | The little-endian value of a register is below 65536 |
| Vcnl4040.Split | dora-sensor-service/service/hw_vcnl4040.py:223-241 | Definition: the bytes value & 0xFF and (value & 0xFF00) >> 8 of any Python integer, negative ones in two's complement. SplitCombine and CombineSplit are its properties |
| Vcnl4040.SplitCombine | dora-sensor-service/service/hw_vcnl4040.py:223-241 | Splitting a threshold into value & 0xFF and (value & 0xFF00) >> 8 and combining the bytes again gives the value modulo 65536, negative values included |
| Vcnl4040.CombineSplit | dora-sensor-service/service/hw_vcnl4040.py:223-241 | Splitting the combined value of a register gives the register back: the getters invert the threshold setters |
| Vcnl4040.FieldWrite | dora-sensor-service/service/hw_vcnl4040.py:267-268 | With a complemented mask and a value inside its field, (b & mask) \| value sets the field to the value and keeps every other bit |
| Vcnl4040.LowerWritten | dora-sensor-service/service/hw_vcnl4040.py:262-269 | Definition of the register after writeLower: low byte (lsb & mask) \| value, high byte as read. FieldWrite states what it does to a field |
| Vcnl4040.UpperWritten | dora-sensor-service/service/hw_vcnl4040.py:272-279 | Definition of the register after writeUpper: low byte as read, high byte (msb & mask) \| value |
| Vcnl4040.StartupRegisters | dora-sensor-service/service/hw_vcnl4040.py:118-130 | Definition of the registers after the five start-up writes, applied in source order. StartupConfiguration and StartupThresholds state their effect |
| Vcnl4040.StartupFrames | dora-sensor-service/service/hw_vcnl4040.py:118-130 | Definition of the five I2C write messages of start-up: PS_MS, PS_CONF1, ALS_CONF, PS_THDL, PS_THDH, in that order |
| Vcnl4040.Sensor.constructor | dora-sensor-service/service/hw_vcnl4040.py:118-130 | The address defaults to 0x60. The LED-current, duty-cycle, integration-time and two threshold writes happen in that order, with the registers and write messages that sequence gives |
| Vcnl4040.Sensor.Read | dora-sensor-service/service/hw_vcnl4040.py:244-251 | A read answers the register's [lsb, msb] and changes nothing |
| Vcnl4040.Sensor.Write | dora-sensor-service/service/hw_vcnl4040.py:254-259 | The write message [command, lsb, msb] is logged, the register takes both bytes (so a later Read answers [lsb, msb]), no other register changes, and the result is True |
| Vcnl4040.Sensor.WriteLower | dora-sensor-service/service/hw_vcnl4040.py:262-269 | The low byte becomes (old lsb & mask) \| value, the high byte stays, and the message sent carries the new register |
| Vcnl4040.Sensor.WriteUpper | dora-sensor-service/service/hw_vcnl4040.py:272-279 | The high byte becomes (old msb & mask) \| value, the low byte stays, and the message sent carries the new register |
| Vcnl4040.Sensor.GetID | dora-sensor-service/service/hw_vcnl4040.py:136-137 | Answers the two bytes of the ID register |
| Vcnl4040.Sensor.GetProximity | dora-sensor-service/service/hw_vcnl4040.py:140-142 | Answers data[0] + (data[1] << 8) of PS_DATA |
| Vcnl4040.Sensor.GetAmbient | dora-sensor-service/service/hw_vcnl4040.py:145-147 | Answers the little-endian value of ALS_DATA |
| Vcnl4040.Sensor.GetWhite | dora-sensor-service/service/hw_vcnl4040.py:150-152 | Answers the little-endian value of WHITE_DATA |
| Vcnl4040.Sensor.SetIRDutyCycle | dora-sensor-service/service/hw_vcnl4040.py:154-155 | Masked write of the PS_CONF1 low byte with PS_DUTY_MASK |
| Vcnl4040.Sensor.SetProxInterruptPersistance | dora-sensor-service/service/hw_vcnl4040.py:157-158 | Masked write of the PS_CONF1 low byte with PS_PERS_MASK |
| Vcnl4040.Sensor.SetAmbientInterruptPersistance | dora-sensor-service/service/hw_vcnl4040.py:160-161 | Masked write of the ALS_CONF low byte with ALS_PERS_MASK |
| Vcnl4040.Sensor.EnableAmbientInterrupts | dora-sensor-service/service/hw_vcnl4040.py:163-164 | Masked write of the ALS_CONF low byte with the uncomplemented ALS_INT_EN_MASK and ALS_INT_ENABLE |
| Vcnl4040.Sensor.DisableAmbientInterrupts | dora-sensor-service/service/hw_vcnl4040.py:166-167 | Masked write of the ALS_CONF low byte with ALS_INT_EN_MASK and ALS_INT_DISABLE |
| Vcnl4040.Sensor.PowerOnAmbient | dora-sensor-service/service/hw_vcnl4040.py:169-170 | Masked write of the ALS_CONF low byte clearing the shutdown bit |
| Vcnl4040.Sensor.PowerOffAmbient | dora-sensor-service/service/hw_vcnl4040.py:172-173 | Masked write of the ALS_CONF low byte setting the shutdown bit |
| Vcnl4040.Sensor.SetAmbientIntegrationTime | dora-sensor-service/service/hw_vcnl4040.py:175-176 | Masked write of the ALS_CONF low byte with ALS_IT_MASK |
| Vcnl4040.Sensor.SetProxIntegrationTime | dora-sensor-service/service/hw_vcnl4040.py:178-179 | Masked write of the PS_CONF1 low byte with PS_IT_MASK |
| Vcnl4040.Sensor.PowerOnProximity | dora-sensor-service/service/hw_vcnl4040.py:181-182 | Masked write of the PS_CONF1 low byte clearing the shutdown bit |
| Vcnl4040.Sensor.PowerOffProximity | dora-sensor-service/service/hw_vcnl4040.py:184-185 | Masked write of the PS_CONF1 low byte setting the shutdown bit |
| Vcnl4040.Sensor.SetProxResolution | dora-sensor-service/service/hw_vcnl4040.py:187-188 | Masked write of the PS_CONF2 (code 3) high byte with PS_HD_MASK |
| Vcnl4040.Sensor.SetProxInterruptType | dora-sensor-service/service/hw_vcnl4040.py:190-191 | Masked write of the PS_CONF2 high byte with PS_INT_MASK |
| Vcnl4040.Sensor.EnableSmartPersistance | dora-sensor-service/service/hw_vcnl4040.py:193-194 | Masked write of the PS_CONF3 low byte with PS_SMART_PERS_MASK and its enable value |
| Vcnl4040.Sensor.DisableSmartPersistance | dora-sensor-service/service/hw_vcnl4040.py:196-197 | Masked write of the PS_CONF3 low byte with PS_SMART_PERS_MASK and 0 |
| Vcnl4040.Sensor.EnableActiveForceMode | dora-sensor-service/service/hw_vcnl4040.py:199-200 | Masked write of the PS_CONF3 low byte setting bit 3 |
| Vcnl4040.Sensor.DisableActiveForceMode | dora-sensor-service/service/hw_vcnl4040.py:202-203 | Masked write of the PS_CONF3 low byte clearing bit 3 |
| Vcnl4040.Sensor.TakeSingleProxMeasurement | dora-sensor-service/service/hw_vcnl4040.py:205-206 | Masked write of the PS_CONF3 low byte with PS_TRIG_MASK and the trigger value |
| Vcnl4040.Sensor.EnableWhiteChannel | dora-sensor-service/service/hw_vcnl4040.py:208-209 | Masked write of the PS_MS high byte clearing bit 7 |
| Vcnl4040.Sensor.DisableWhiteChannel | dora-sensor-service/service/hw_vcnl4040.py:211-212 | Masked write of the PS_MS high byte setting bit 7 |
| Vcnl4040.Sensor.EnableProxLogicMode | dora-sensor-service/service/hw_vcnl4040.py:214-215 | Masked write of the PS_MS high byte setting bit 6 |
| Vcnl4040.Sensor.DisableProxLogicMode | dora-sensor-service/service/hw_vcnl4040.py:217-218 | Masked write of the PS_MS high byte clearing bit 6 |
| Vcnl4040.Sensor.SetLEDCurrent | dora-sensor-service/service/hw_vcnl4040.py:220-221 | Masked write of the PS_MS high byte with LED_I_MASK |
| Vcnl4040.Sensor.SetProxCancellation | dora-sensor-service/service/hw_vcnl4040.py:223-225 | PS_CANC takes both bytes of the value split in two |
| Vcnl4040.Sensor.SetALSHighThreshold | dora-sensor-service/service/hw_vcnl4040.py:227-229 | ALS_THDH takes both bytes of the value split in two |
| Vcnl4040.Sensor.SetALSLowThreshold | dora-sensor-service/service/hw_vcnl4040.py:231-233 | ALS_THDL takes both bytes of the value split in two |
| Vcnl4040.Sensor.SetProxHighThreshold | dora-sensor-service/service/hw_vcnl4040.py:235-237 | PS_THDH takes both bytes of the value split in two |
| Vcnl4040.Sensor.SetProxLowThreshold | dora-sensor-service/service/hw_vcnl4040.py:239-241 | PS_THDL takes both bytes of the value split in two |
| Vcnl4040.StartupConfiguration | dora-sensor-service/service/hw_vcnl4040.py:126-128 | After start-up the LED current is 140 mA, the IR duty cycle 1/320 and the ambient integration time 160 ms, each field alone. All other bits of those registers are as before |
| Vcnl4040.StartupThresholds | dora-sensor-service/service/hw_vcnl4040.py:129-130 | After start-up the proximity thresholds are 10 and 1000 (bytes 0x0A 0x00 and 0xE8 0x03), and every register start-up does not program is as it was |
| Vcnl4040.AmbientIntegrationTimeOnlyChangesItsField | dora-sensor-service/service/hw_vcnl4040.py:175-176 | Any ALS_IT value sets bits 6-7 of the ALS_CONF low byte to that value and changes nothing else in the register |
| Vcnl4040.SharedConfigRegisterBytesIndependent | dora-sensor-service/service/hw_vcnl4040.py:13-14 | The duty-cycle setter (PS_CONF1, low byte) and the resolution setter (PS_CONF2, high byte) share code 3, never disturb each other's byte, and commute |
| Vcnl4040.AmbientInterruptMaskClearsOtherBits | dora-sensor-service/service/hw_vcnl4040.py:39-41 | As written, enabling ambient interrupts leaves the ALS_CONF low byte at exactly 0x02. Disabling keeps only bit 1 |
| Vcnl4040.PsConf3MaskValueMismatch | dora-sensor-service/service/hw_vcnl4040.py:83-92 | As written, smart persistence clears bit 4 but sets bit 1. The single-measurement trigger sets bit 2 but clears bit 3 |
| Vcnl4040.AmbientShutdownBit | dora-sensor-service/service/hw_vcnl4040.py:43-45 | Powering the ambient sensor on clears bit 0 of ALS_CONF, powering it off sets it, and no other bit changes |
| DoraService.IntegrationFlag | dora-service/service/models.py:108-117 | The flag is one of the four ALS_IT values, and a selector outside 0..3 gives 80 ms |
| DoraService.IntegrationFlagTable | dora-service/service/models.py:112-116 | 0 maps to 0x00, 1 to 0x80, 2 to 0x40 and 3 to 0xC0 |
| DoraService.IntegrationFlagRoundTrip | dora-service/service/models.py:112-117 | On 0..3 the selector can be read back from the flag, so the lookup is injective there |
| DoraService.IntegrationFlagInField | dora-service/service/models.py:112-117 | Every flag fits the two-bit ALS_IT field |
| DoraService.ConfigRoundTrip | dora-service/service/models.py:98 | The bus numbers can be parsed back out of the configuration string |
| DoraService.ConfigString | dora-service/service/models.py:98 | Definition: 'name=dora-service, bus1=', the first bus in decimal, ', bus2=', the second bus in decimal. ConfigRoundTrip states that both buses can be read back |
| DoraService.DoraSubsystem.GetConfig | dora-service/service/models.py:94-98 | The configuration string carries both sensors' bus numbers recoverably |
| DoraService.PowerDown | dora-service/service/models.py:65-71 | The service's initialisation of one sensor: proximity off, ambient off, integration selector 0, as three masked writes in that order |
| DoraService.ServiceStartShutsDown | dora-service/service/models.py:64-71 | After start-up both shutdown bits are set, the integration time is 80 ms and the ID register is as the device reported it |
| DoraService.DoraSubsystem.constructor | dora-service/service/models.py:47-71 | Both sensors are at the default address on their buses. Telemetry is (connected = both IDs read 0x86, powered off, selector 0, values 0). Each sensor's registers and write log are the driver start-up followed by PowerDown |
| DoraService.DoraSubsystem.GetPower | dora-service/service/models.py:101-105 | The state is 1 exactly when powered and 0 exactly when not |
| DoraService.DoraSubsystem.Noop | dora-service/service/models.py:153-159 | True exactly when both sensors' ID low byte is 0x86 |
| DoraService.DoraSubsystem.CommandRaw | dora-service/service/models.py:120-149 | Takes any integers. Sensor other than 1, or flag other than 0 or 1: (False, 0), whatever the other arguments, and nothing changes. Otherwise a command code outside 0..255 is a ValueError, and so is a write whose lsb or msb is outside 0..255; the sensor is then untouched. Flag 0: the register's little-endian value, nothing changes. Flag 1: the write's status, with the register and write log of the write |
| DoraService.DoraSubsystem.Refresh | dora-service/service/models.py:162-173 | When connected, both ambient readings are stored and nothing else changes. Otherwise the telemetry is untouched |
| DoraService.DoraSubsystem.SetPower | dora-service/service/models.py:176-195 | The power flag is stored. Both sensors get one ALS_CONF write that clears (on) or sets (off) the shutdown bit. Status is always True |
| DoraService.DoraSubsystem.SetIntegrationTime | dora-service/service/models.py:198-220 | Outside 0..3: status False, telemetry and both sensors unchanged. Inside: the selector is stored, both sensors get one write setting ALS_IT to its flag, and status is True |
| Text.DecimalRoundTrip | dora-service/service/models.py:98 | Reading back the decimal rendering of a natural gives the natural |
| SystemInfo.StripNonNumeric | dora-health-app/src/system_info.rs:19-21 | What is left holds only digits and is no longer than the input. A digit string is unchanged, and a digit-free one becomes empty |
| SystemInfo.StripAppend | dora-health-app/src/system_info.rs:19-21 | Stripping distributes over concatenation |
| SystemInfo.ParseI32 | dora-health-app/src/system_info.rs:95-101 | A field with no digits fails. A success is non-negative and fits an i32 |
| SystemInfo.ParseI32Around | dora-health-app/src/system_info.rs:95-101 | A rendered natural between digit-free text parses to itself exactly when it fits an i32, and fails when it overflows |
| SystemInfo.ParseFloatField | dora-health-app/src/system_info.rs:39-40 | Parses exactly when at least one digit is left after stripping |
| SystemInfo.IsWhitespace | dora-health-app/src/system_info.rs:34 | Definition of `char::is_whitespace`: the Unicode White_Space characters (tab to carriage return, space, U+0085, U+00A0, U+1680, U+2000-U+200A, U+2028, U+2029, U+202F, U+205F, U+3000), which `trim` and `split_whitespace` use |
| SystemInfo.Trim | dora-health-app/src/system_info.rs:34 | Definition of `str::trim`: leading and trailing White_Space dropped. FieldsOfTrim states that it changes no field |
| SystemInfo.Lines | dora-health-app/src/system_info.rs:85 | Definition of `str::lines`: split at "\n" or "\r\n", the final line ending optional, and a lone "\r" at the very end kept. LinesOfJoin is its round trip |
| SystemInfo.Fields | dora-health-app/src/system_info.rs:34 | split_whitespace yields non-empty fields free of whitespace |
| SystemInfo.FieldsOfJoin | dora-health-app/src/system_info.rs:34 | Words separated by runs of spaces, each run one space or wider, split back into the same words |
| SystemInfo.FieldsOfTrim | dora-health-app/src/system_info.rs:34 | Trimming before splitting changes no field |
| SystemInfo.LinesOfJoin | dora-health-app/src/system_info.rs:85 | Lines each ended by a newline are split back by `lines` into the same lines |
| SystemInfo.FindLine | dora-health-app/src/system_info.rs:85-87 | None exactly when no line starts with the prefix. A found line starts with the prefix |
| SystemInfo.FindLineAt | dora-health-app/src/system_info.rs:85-86 | The first line that starts with the prefix is found, whatever follows it |
| SystemInfo.UptimeOfFields | dora-health-app/src/system_info.rs:34-46 | The field-count error comes exactly when there are fewer than 2 fields. Success comes exactly when both of the first two fields keep a digit. Every other case is the parse error |
| SystemInfo.UpTime | dora-health-app/src/system_info.rs:31-48 | Definition of `up_time` on the file contents: UptimeOfFields of the fields of the trimmed text. UpTimeOfWords and UpTimeOfRendered are its properties |
| SystemInfo.UpTimeOfRendered | dora-health-app/src/system_info.rs:31-48 | "up idle" followed by a newline reads back as Uptime(up, idle) |
| SystemInfo.UpTimeOfWords | dora-health-app/src/system_info.rs:34 | Two words and a newline are read as exactly those two fields |
| SystemInfo.UptimeFieldInHundredths | dora-health-app/src/system_info.rs:39-40 | A kernel time such as 350735.47 is one field, and its stripped digits read as hundredths of a second |
| SystemInfo.CpuFields | dora-health-app/src/system_info.rs:95-107 | Success exactly when fields 1 to 7 all parse as i32; the counters are then non-negative. Otherwise the parse error |
| SystemInfo.CpuOfLine | dora-health-app/src/system_info.rs:88-110 | Definition of the per-line step of `cpu_time`: the field-count error under 8 fields of the trimmed line, otherwise CpuFields. CpuTime and CpuTimeOfStat state its effect |
| SystemInfo.CpuTime | dora-health-app/src/system_info.rs:82-112 | The not-found error comes exactly when no line starts with "cpu ". Any other error is about the first such line, and it is the field-count error exactly when that line has fewer than 8 fields. The counters read are non-negative |
| SystemInfo.CpuTimeOfStat | dora-health-app/src/system_info.rs:82-112 | File contents whose first "cpu " line renders counters c, with any further counters on the line, runs of one or more spaces between its fields (the kernel's two after the label included) and any lines before (without the prefix) and after, read back as c: fields 1..7 map in order to user..softirq |
| SystemInfo.Wrap32 | dora-health-app/src/system_info.rs:69-75 | i32 subtraction wraps: it is the exact difference when that fits, and always congruent to it modulo 2^32 |
| SystemInfo.Sub | dora-health-app/src/system_info.rs:64-78 | Definition of `impl Sub for CPUtime`: each field is the i32 difference, wrapped by Wrap32. SubOfReadings and SubSelf are its properties |
| SystemInfo.SubOfReadings | dora-health-app/src/system_info.rs:64-78 | For two readings (non-negative counters) the difference is the exact field-by-field difference |
| SystemInfo.SubSelf | dora-health-app/src/system_info.rs:64-78 | A reading minus itself is zero in every field |
| SystemInfo.MemOfLines | dora-health-app/src/system_info.rs:154-161 | Success exactly when all three lines' digits parse, with those three values. Otherwise the parse error |
| SystemInfo.MemInfo | dora-health-app/src/system_info.rs:145-167 | "Could not find fields" exactly when a MemTotal:, MemFree: or MemAvailable: line is missing. Any other error is the parse error. Values read are non-negative |
| SystemInfo.MemInfoOfRendered | dora-health-app/src/system_info.rs:145-167 | Lines "MemTotal:", "MemFree:" and "MemAvailable:" first, each followed by its own number of spaces, a value and " kB", anything after, read back as the three values |
| SystemInfo.DiskOfFields | dora-health-app/src/system_info.rs:212-240 | The field-count error comes exactly when there are not 6 fields. A six-field row succeeds exactly when fields 1-3 parse as i32 and field 4 keeps a digit; the entry is then field 0, those three values, field 4's value and field 5, with non-negative sizes. Otherwise the parse error |
| SystemInfo.DashRowFails | dora-health-app/src/system_info.rs:216-238 | A six-field row with "-" in the size and Use% columns gives the parse error, which fails the whole table |
| SystemInfo.DfLineOfFields | dora-health-app/src/system_info.rs:212 | Trimming a df line changes none of its fields |
| SystemInfo.DfLine | dora-health-app/src/system_info.rs:212-240 | Definition of the row step of `disk_usage_all`: DiskOfFields of the fields of the trimmed line. DfLineOfFields and DfLineOfRow are its properties |
| SystemInfo.Collect | dora-health-app/src/system_info.rs:207-245 | Ok exactly when every result is Ok, with one value per result in order. Otherwise the error of the first failing result |
| SystemInfo.DfRows | dora-health-app/src/system_info.rs:210-245 | The rows after the header: Ok exactly when every line parses, one entry per line in order. Otherwise the first failing line's error, which is the field-count or the parse error |
| SystemInfo.DfTable | dora-health-app/src/system_info.rs:208-245 | Definition: DfRows of the lines of df's standard output, with the first (header) line skipped. DfTableOfOutput is its round trip |
| SystemInfo.DiskUsage | dora-health-app/src/system_info.rs:198-248 | Definition: the exec error when df could not run, otherwise DfTable of its output. DiskUsageAll's loop is proved to compute it |
| SystemInfo.DiskUsageAll | dora-health-app/src/system_info.rs:198-248 | The loop with early returns computes DiskUsage: the exec error when the command could not run, otherwise the df table of its output with the header skipped |
| SystemInfo.DfLineOfRow | dora-health-app/src/system_info.rs:212-233 | A row with its six columns separated by runs of one or more spaces, as df pads them, reads back as that row |
| SystemInfo.DfRowsOfPrinted | dora-health-app/src/system_info.rs:210-245 | Printed rows, each padded its own way, read back as the rows, in order |
| SystemInfo.DfTableOfOutput | dora-health-app/src/system_info.rs:207-245 | Any header line followed by printed rows, with any column padding, parses to exactly those rows, in order |
| SystemInfo.FindMount | dora-health-app/src/system_info.rs:272-276 | An error exactly when no entry is mounted on the path. Otherwise the first entry that is |
| SystemInfo.FindFilesystem | dora-health-app/src/system_info.rs:280-284 | An error exactly when no entry has the filesystem. Otherwise the first entry that has it |
| SystemInfo.DiskUsageByMount | dora-health-app/src/system_info.rs:252-257 | The table's error, or FindMount on the table |
| SystemInfo.DiskUsageByFilesystem | dora-health-app/src/system_info.rs:262-267 | The table's error, or FindFilesystem on the table |
| VectorMath.VecAdd | dora-health-app/src/vector_math.rs:3-11 | Length min(\|a\|, \|b\|), and element i is a[i] + b[i] |
| VectorMath.VecSub | dora-health-app/src/vector_math.rs:14-22 | Length min(\|a\|, \|b\|), and element i is a[i] - b[i] |
| VectorMath.VecSum | dora-health-app/src/vector_math.rs:25-33 | The left-to-right sum of the elements, 0 for the empty vector |
| VectorMath.SumAppend | dora-health-app/src/vector_math.rs:25-33 | The sum of a concatenation is the sum of the parts |
| VectorMath.SumOfPointwiseAdd | dora-health-app/src/vector_math.rs:3-11 | The sum of an element-wise sum is the sum of the sums |
| VectorMath.SumOfPointwiseSub | dora-health-app/src/vector_math.rs:14-22 | The sum of an element-wise difference is the difference of the sums |

## Left out

- `serial_init` and the service `main`: opening and configuring the port and wiring the comms engine are device and process I/O. The 100 ms timeout and 10 ms back-off appear only as constants and as timeout and Sleep events.
- Real thread interleaving, lock poisoning and `try_borrow_mut` failures are not modelled. The lock is a trace of Acquire, Release and Sleep entries, and calls are sequential.
- `Exhausted` is the model's own read result for a script that runs out before a message ends. A real port never runs out.
- RadioService.Channel.Write: the port log gets only the bytes the port reported taking. The result ignores the count, as the code does.
- The smbus2 transport: the device is modelled as a register map and a log of write messages. A read always answers the register's two bytes, so the dead `data[0] == -1` branches are left out.
- Vcnl4040 setters take their value as a byte. A Python value outside 0..255 makes `bytearray` raise, and that path is not modelled.
- The threshold and cancellation setters first apply `int(value)`, which truncates a float and parses a string. The model takes an integer, which is what every caller passes.
- Floating point: `cpu_usage`, the computed `use_percent` of `Meminfo`, `angle_of_arrival` (atan2) and the f32 uptime are not modelled. The f32 parse of a stripped field is modelled as the exact natural its digits denote, so any non-empty digit string parses; `Diskinfo.usePercent` holds df's Use% column read this way.
- `is_numeric` is restricted to ASCII digits. Other Unicode numeric characters are not modelled.
- File and process I/O: `read_file` is not modelled, and the parsers take the file contents as a string. The output of `/bin/df -k` is an `Option<string>`: None is the exec failure. Invalid UTF-8 output is not modelled (the code reads it as empty).
- SystemInfo.Wrap32: models the wrap-around of a release build. The overflow panic of a debug build is not modelled.
- Logging, `print`, syslog setup, `time.sleep`, the wall-clock uptime of `getPower` (taken as a parameter) and `__del__` are left out.
- GraphQL schema bindings, `model.rs` telemetry accessors and file commands, the health app `main` and the track app are outside this model.
