# LSM9DS0 over I2C: register transactions and sensor façade

This project models the I2C master driver of an STM32F4 board and the LSM9DS0
9-axis sensor driver built on it, and proves properties of the model in Dafny.

**Bus engine (`i2c_driver.c`).** `readRegister` and `writeRegister` are chains of
guarded waits. Each wait polls one peripheral condition with a counter that is
reset to `my_timeout` (1000000) and post-decremented after every unmet poll.
When the counter has already reached 0, the routine emits a diagnostic naming
the phase and returns 0. When a wait sees its condition, the routine performs
that phase's bus actions. A read has eight phases, numbered 0-7:

- 0-2: the bus-idle wait and START, the EV5 wait and the device address for
  writing, then the EV6 wait and the register byte.
- 3-5: the BTF wait and a repeated START, the EV5 wait and the device address
  for reading, then the ADDR wait followed by NACK, the SR2 read and STOP.
- 6-7: the RXNE wait and the received byte, then the STOP-cleared wait followed
  by acknowledgement re-enabled and AF cleared.

A write has five phases: the same opening as a read, then the value byte, then
STOP.

**Sensor façade (`lsm9ds0_driver.c`).**

- Four pass-throughs fix the device address: 0xD5 for the gyroscope and 0x3D for
  the accelerometer/magnetometer die.
- Three init routines write fixed register values.
- Three read routines each read six output registers in the order X_L, X_H, Y_L,
  Y_H, Z_L, Z_H. They join each pair of bytes into an `int16_t` with
  `(hi << 8) | lo`.

## How the model is built

- `I2CProtocol` (`i2c_protocol.dfy`) describes a transaction as data.
  - A phase table (`ReadSteps`, `WriteSteps`) lists each phase's awaited
    condition and the actions that follow it.
  - `Wait` is one guarded wait loop, as a function.
  - `Run` runs the waits of a table up to the first wait that expires.
  - `Transcript` is the event sequence a transaction that passed `passed` phases
    leaves behind.
- The peripheral is an oracle. `status(c, n)` is its answer to the n-th status
  poll when asked about condition `c`, and `rx(n)` is the n-th byte it
  delivers. The ST peripheral library calls become actions recorded in a ghost
  `trace`.
- `I2CDriver` (`i2c_driver.dfy`) is the imperative driver. A `Bus` object holds:
  - the poll counter `clock`;
  - the number of bytes `received`;
  - the ACK bit `ackEnabled`;
  - the ghost event `trace`;
  - the ghost log `calls` of register transactions.

  `Await` is the C wait loop, with its post-decrement, proved against `Wait`.
  `ReadRegister` and `WriteRegister` are proved against the phase tables:
  - their new state is the `Run` of their table;
  - their trace gains exactly that run's `Transcript`;
  - their result is stated for every way the transaction can end.

  The phases of a read are grouped into three helper methods: `Open` (0-2),
  `Turnaround` (3-5) and `Receive` (6-7). They carry no source behaviour of
  their own.
- `I2CTranscripts` (`i2c_transcripts.dfy`) proves what those transcripts say
  about the bus. It covers the exact event order, where START and STOP appear,
  the single trailing diagnostic, the acknowledge setting left behind and the
  poll bounds.
- `Lsm9ds0Driver` (`lsm9ds0_driver.dfy`) is the façade over a `Bus`.
  - Register addresses from `lsm9ds0_regs.h` stay symbolic; that file is not
    part of this model.
  - The array `temp[6]` of the read routines is a Dafny `array`.
  - The `int16_t` assembly is proved for all bytes: its value and its range, and
    that it round-trips with splitting a sample into bytes.

`readRegister` returns `uint32_t`, and the pass-throughs narrow it to
`uint8_t`. The model records a read in `calls` with a byte-typed value, so every
read proves that the narrowing loses nothing.

## Model

| member | source | states |
|---|---|---|
| I2CProtocol.Opening | i2c_driver.c:66-107 | The opening shared by both transactions has exactly three phases. |
| I2CProtocol.ReadSteps | i2c_driver.c:62-190 | `readRegister` has exactly eight guarded phases. |
| I2CProtocol.WriteSteps | i2c_driver.c:196-272 | `writeRegister` has exactly five guarded phases. |
| I2CProtocol.OpeningPrefix | i2c_driver.c:202-241 | Phases 0-2 are the same in both transactions: BUSY, START, EV5, address for writing, EV6, register byte. |
| I2CProtocol.Wait | i2c_driver.c:66-76 | A wait that succeeds does so within `timeout + 1` polls, and the last of those polls saw the condition. |
| I2CProtocol.WaitStopsAtFirst | i2c_driver.c:69-76 | A successful wait stops at the first poll that sees its condition. Every earlier poll saw it unmet. |
| I2CProtocol.WaitExpiresIff | i2c_driver.c:69-75 | A wait gives up exactly when `timeout + 1` consecutive polls saw the condition unmet. |
| I2CProtocol.Run | i2c_driver.c:62-190 | A run never passes more phases than the table has, and the poll clock never goes back. |
| I2CProtocol.Transcript | i2c_driver.c:62-190 | The events a transaction leaves behind: the wait and the actions of every phase that passed, then the phase-tagged diagnostic of the wait that expired, if any. |
| I2CProtocol.RunPolls | i2c_driver.c:62-190 | Each phase entered spends at most `timeout + 1` polls. The phases entered are at most the phases left. |
| I2CDriver.Bus.constructor | i2c_driver.c:50 | The bus starts with acknowledgement enabled, no polls made, no bytes received and empty logs. |
| I2CDriver.Bus.Poll | i2c_driver.c:69 | One poll returns the peripheral's answer for that poll number and advances the clock by one. |
| I2CDriver.Bus.Await | i2c_driver.c:66-76 | The post-decrement loop agrees with `Wait`. If the wait is met, it uses exactly that many polls and records the awaited condition. Otherwise it uses `timeout + 1` polls and records one diagnostic naming the operation and phase. |
| I2CDriver.Bus.GenerateStart | i2c_driver.c:79 | Records one START. |
| I2CDriver.Bus.Send7bitAddress | i2c_driver.c:93 | Records the device address with its direction. |
| I2CDriver.Bus.WriteDataRegister | i2c_driver.c:107 | Records the byte written to the data register. |
| I2CDriver.Bus.AcknowledgeConfig | i2c_driver.c:149 | Sets the ACK bit to the requested value and records the change. |
| I2CDriver.Bus.ReadStatus2 | i2c_driver.c:152 | Records the SR2 read that clears ADDR. |
| I2CDriver.Bus.GenerateStop | i2c_driver.c:155 | Records one STOP. |
| I2CDriver.Bus.ReadDataRegister | i2c_driver.c:169 | Returns the next byte the peripheral delivers and consumes it. |
| I2CDriver.Bus.ClearAckFailure | i2c_driver.c:186 | Records the clearing of AF. |
| I2CDriver.Bus.Phase | i2c_driver.c:82-90 | If the wait of a phase is met, the run reaches the next phase and the trace is ready for that phase's actions. Otherwise the transaction is over in that phase with its transcript recorded. |
| I2CDriver.Bus.Open | i2c_driver.c:66-107 | Phases 0-2 either all pass with their actions recorded, or the transaction ends in one of them. |
| I2CDriver.Bus.Turnaround | i2c_driver.c:110-155 | Phases 3-5 either pass, leaving ACK disabled after the SR2 read and STOP, or the transaction ends in one of them with ACK untouched. |
| I2CDriver.Bus.Receive | i2c_driver.c:158-186 | Phases 6-7 either pass, returning the received byte with ACK re-enabled, or the transaction ends in one of them. After a timeout in phase 7 the byte was still consumed. |
| I2CDriver.Bus.ReadTransaction | i2c_driver.c:62-190 | The whole effect of one `readRegister`: the clock and trace follow the run and transcript of the eight-phase table. A byte is consumed iff phase 6 passed. ACK follows the timeout phase, or is enabled after success. The result is the byte or 0, and `calls` gains the read. |
| I2CDriver.Bus.WriteTransaction | i2c_driver.c:196-272 | The whole effect of one `writeRegister`: the clock and trace follow the run and transcript of the five-phase table, and `calls` gains the write with result 0. |
| I2CDriver.Bus.ReadRegister | i2c_driver.c:62-190 | The clock moves to the end of the run of the eight-phase table, and the trace gains that run's transcript. One byte is consumed iff phase 6 passed. ACK is untouched by a timeout in phases 0-5, disabled by one in phase 6 or 7, and enabled after success. The result is the received byte after success and 0 after any timeout. |
| I2CDriver.Bus.WriteRegister | i2c_driver.c:196-272 | The result is always 0. The clock and trace follow the run and transcript of the five-phase table. |
| I2CTranscripts.TimeoutIsLastAndOnly | i2c_driver.c:71-74 | A transcript holds a diagnostic iff the transaction stopped early. If so, it holds exactly one, as its last event, and that diagnostic names the phase that expired. |
| I2CTranscripts.ReadSuccess | i2c_driver.c:62-190 | The exact 19-event order of a successful read. ACK is disabled, SR2 read and STOP sent after the ADDR wait and before the RXNE wait. ACK is re-enabled before AF is cleared. |
| I2CTranscripts.ReadStartsTwice | i2c_driver.c:79-121 | A successful read generates START exactly twice: first, and again after BTF. |
| I2CTranscripts.WriteSuccess | i2c_driver.c:196-272 | The exact 10-event order of a successful write. The register byte precedes the value byte, and STOP is last. |
| I2CTranscripts.WriteStartsOnce | i2c_driver.c:213 | A successful write generates START exactly once, as its second event. |
| I2CTranscripts.ReadEarlyTimeoutNoStop | i2c_driver.c:62-146 | A read that times out in phases 0-5 never generates STOP. |
| I2CTranscripts.WriteTimeoutNoStop | i2c_driver.c:196-266 | A write that times out in any phase never generates STOP. |
| I2CTranscripts.ReadAck | i2c_driver.c:148-183 | Replaying a read transcript leaves ACK unchanged after a timeout in phases 0-5 and disabled after one in phase 6 or 7. After success it leaves ACK enabled. This matches the `ackEnabled` that `ReadRegister` ensures. |
| I2CTranscripts.PollBound | i2c_driver.c:62-190 | A transaction of `n` phases makes at most `n * (timeout + 1)` polls. |
| I2CTranscripts.ReadPollBound | i2c_driver.c:62-190 | A read makes at most `8 * (timeout + 1)` polls. |
| I2CTranscripts.WritePollBound | i2c_driver.c:196-272 | A write makes at most `5 * (timeout + 1)` polls. |
| I2CTranscripts.BusNeverIdle | i2c_driver.c:68-76 | A bus that stays busy for `timeout + 1` polls ends the transaction in phase 0 after exactly those polls, with only the phase-0 diagnostic recorded. |
| Lsm9ds0Driver.GWriteByte | lsm9ds0_driver.c:13-16 | One write transaction to the gyroscope at 0xD5. |
| Lsm9ds0Driver.XmWriteByte | lsm9ds0_driver.c:21-24 | One write transaction to the accelerometer/magnetometer at 0x3D. |
| Lsm9ds0Driver.GReadByte | lsm9ds0_driver.c:29-32 | One read transaction from 0xD5. The byte returned is the transaction's full 32-bit result, so the narrowing loses nothing. |
| Lsm9ds0Driver.XmReadByte | lsm9ds0_driver.c:38-41 | One read transaction from 0x3D, narrowed to a byte without loss. |
| Lsm9ds0Driver.InitGyro | lsm9ds0_driver.c:46-57 | Exactly five gyroscope writes, in order: CTRL_REG1_G=0x0F, then CTRL_REG2_G through CTRL_REG5_G set to 0x00. |
| Lsm9ds0Driver.InitAccel | lsm9ds0_driver.c:62-71 | Exactly four XM writes, in order: CTRL_REG0_XM=0x00, CTRL_REG1_XM=0x57, CTRL_REG2_XM=0x00, CTRL_REG3_XM=0x00. |
| Lsm9ds0Driver.InitMag | lsm9ds0_driver.c:77-89 | Exactly five XM writes, in order: CTRL_REG5_XM=0x14, then CTRL_REG6_XM, CTRL_REG7_XM, CTRL_REG4_XM and INT_CTRL_REG_M set to 0x00. |
| Lsm9ds0Driver.Wrap16 | lsm9ds0_driver.c:110 | Storing a 16-bit pattern in `int16_t` gives either the pattern or the pattern minus 65536, always in range. |
| Lsm9ds0Driver.Assemble | lsm9ds0_driver.c:110-112 | `(hi << 8) \| lo` as `int16_t` is `hi*256 + lo` when `hi < 128` and `hi*256 + lo - 65536` otherwise. The result lies in [-32768, 32767]. |
| Lsm9ds0Driver.OrDisjoint | lsm9ds0_driver.c:110 | OR-ing a byte into a shifted byte adds it, because the two have no bit in common. |
| Lsm9ds0Driver.SplitAssemble | lsm9ds0_driver.c:110-112 | Splitting an assembled sample into low and high bytes gives back the two bytes read. |
| Lsm9ds0Driver.AssembleSplit | lsm9ds0_driver.c:110-112 | Every `int16_t` sample is the assembly of its own low and high bytes. |
| Lsm9ds0Driver.ReadGyro | lsm9ds0_driver.c:97-112 | Exactly six gyroscope reads, in the order X_L, X_H, Y_L, Y_H, Z_L, Z_H, into `temp`. The samples are x = assembly of `temp[0..1]`, y of `temp[2..3]` and z of `temp[4..5]`. |
| Lsm9ds0Driver.ReadAccel | lsm9ds0_driver.c:132-147 | The same six-read order on the accelerometer output registers of the XM die, with the same assembly. |
| Lsm9ds0Driver.ReadMag | lsm9ds0_driver.c:165-180 | The same six-read order on the magnetometer output registers of the XM die, with the same assembly. |

## Left out

- `initI2C`, which sets up clocks, GPIO and the peripheral. The `Bus` constructor only assumes its outcome: acknowledgement enabled.
- The ST peripheral library. Flag and event checks are the `status` oracle, received bytes are the `rx` oracle, and every other call is an event in the ghost trace. Register-level effects such as flag clearing by SR1/SR2 reads are not modelled.
- The R/W bit that `I2C_Send7bitAddress` sets in the address byte. The address and the direction are recorded separately.
- The text of the `my_printf` diagnostics. A diagnostic is `Timeout(op, phase)`, which carries exactly the operation and phase number the text names.
- Wall-clock time, interrupts and concurrent use of the bus. A poll is one step of the `clock`.
- The float scaling `x * scale * factor` and the `(int)` truncation that follow the assembly in `readGyro`, `readAccel` and `readMag`. The read routines return the three `int16_t` samples.
- The values of the `lsm9ds0_regs.h` register constants. `lsm9ds0_regs.h` is not part of this model, and the constants stay symbolic and are not assumed distinct.
- i2c_driver.h, which only declares the routines.
- Wrap16: converting a value of 0x8000 or more to `int16_t` is implementation-defined in C. The model assumes the modulo-2^16 two's-complement wrap that GCC performs on ARM.
- ReadRegister: a timeout and a received byte of 0 both return 0, as in the source. The two are told apart only through `trace`, which holds the `Timeout(ReadOp, k)` diagnostic, and `clock`. Neither the result nor `calls` distinguishes them.
- WriteRegister: the comment at i2c_driver.c:271 speaks of returning 0 or 1. The code always returns 0, and the model follows the code.
- XmWriteByte: the source `return`s the value of `writeRegister` from a `void` function. The model discards it as `gWriteByte` does.
- InitGyro: states the write calls made, in order, with their values. It does not restate each write's clock and trace effect, which `GWriteByte` states.
- InitAccel: states the write calls only, as InitGyro does; each write's effect is stated by `XmWriteByte`.
- InitMag: states the write calls only, as InitGyro does; each write's effect is stated by `XmWriteByte`.
- ReadGyro: states the reads made, in order, the bytes they returned and the samples. It does not restate each read's clock, trace and ACK effect, which `GReadByte` states.
- ReadAccel: states reads and samples only, as ReadGyro does; each read's effect is stated by `XmReadByte`.
- ReadMag: states reads and samples only, as ReadGyro does; each read's effect is stated by `XmReadByte`.
