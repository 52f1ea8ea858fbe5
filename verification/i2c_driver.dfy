/**
 * `readRegister` and `writeRegister` of i2c_driver.c as methods of the bus
 * object. The peripheral's answers come from the oracles fixed at
 * construction; every bus action the engine takes is recorded in the ghost
 * `trace`, and every transaction it is asked for in the ghost `calls`.
 */
module I2CDriver {
  import opened I2CProtocol

  /** A register transaction requested of the engine, with what it returned:
      a read records its byte (the 32-bit result of `readRegister` always fits
      one), a write its 32-bit result. */
  datatype Call =
    | ReadCall(dev: u8, reg: u8, value: u8)
    | WriteCall(dev: u8, reg: u8, data: u8, result: u32)

  class Bus {
    /** The peripheral's answer to the n-th status poll when asked about `c`. */
    const status: (Cond, nat) -> bool
    /** The n-th byte to arrive in the data register. */
    const rx: nat -> u8

    var clock: nat          // status polls made so far
    var received: nat       // bytes taken from the data register so far
    var ackEnabled: bool    // acknowledge generation (the ACK bit of CR1)
    ghost var trace: seq<Event>
    ghost var calls: seq<Call>

    /** The bus as `initI2C` leaves it: acknowledge generation enabled. */
    constructor (status: (Cond, nat) -> bool, rx: nat -> u8)
      ensures this.status == status && this.rx == rx
      ensures clock == 0 && received == 0 && ackEnabled
      ensures trace == [] && calls == []
    {
      this.status := status;
      this.rx := rx;
      clock, received, ackEnabled := 0, 0, true;
      trace, calls := [], [];
    }

    /** One status poll (`I2C_GetFlagStatus`, `I2C_CheckEvent` or the CR1 read). */
    method Poll(c: Cond) returns (met: bool)
      modifies this`clock
      ensures clock == old(clock) + 1
      ensures met == status(c, old(clock))
    {
      met := status(c, clock);
      clock := clock + 1;
    }

    /** One guarded wait of phase `phase`: the `while` loop with its freshly
        reset counter `timeout`, post-decremented after every poll that saw
        the condition unmet. */
    method Await(c: Cond, budget: nat, op: Op, phase: nat) returns (met: bool)
      modifies this`clock, this`trace
      ensures var w := Wait(status, c, old(clock), budget);
        && met == w.Met?
        && clock == old(clock) + (if met then w.polls else budget + 1)
        && trace == old(trace) + (if met then [Awaited(c)] else [Timeout(op, phase)])
    {
      var timeout: int := budget;
      met := Poll(c);
      while !met
        invariant 0 <= timeout <= budget
        invariant clock == old(clock) + (budget - timeout) + 1
        invariant met == status(c, clock - 1)
        invariant trace == old(trace)
        invariant Wait(status, c, old(clock), budget) == Delay(Wait(status, c, clock - 1, timeout), budget - timeout)
        decreases timeout
      {
        var was := timeout;
        timeout := timeout - 1;
        if was == 0 {
          trace := trace + [Timeout(op, phase)];
          return;
        }
        met := Poll(c);
      }
      trace := trace + [Awaited(c)];
    }

    method GenerateStart()
      modifies this`trace
      ensures trace == old(trace) + [Start]
    {
      trace := trace + [Start];
    }

    method Send7bitAddress(dev: u8, dir: Direction)
      modifies this`trace
      ensures trace == old(trace) + [SendAddress(dev, dir)]
    {
      trace := trace + [SendAddress(dev, dir)];
    }

    method WriteDataRegister(data: u8)
      modifies this`trace
      ensures trace == old(trace) + [SendData(data)]
    {
      trace := trace + [SendData(data)];
    }

    method AcknowledgeConfig(enable: bool)
      modifies this`trace, this`ackEnabled
      ensures ackEnabled == enable
      ensures trace == old(trace) + [AckConfig(enable)]
    {
      ackEnabled := enable;
      trace := trace + [AckConfig(enable)];
    }

    /** The read of SR2 that, after SR1, clears the ADDR flag. */
    method ReadStatus2()
      modifies this`trace
      ensures trace == old(trace) + [ReadSR2]
    {
      trace := trace + [ReadSR2];
    }

    method GenerateStop()
      modifies this`trace
      ensures trace == old(trace) + [Stop]
    {
      trace := trace + [Stop];
    }

    method ReadDataRegister() returns (data: u8)
      modifies this`trace, this`received
      ensures data == rx(old(received)) && received == old(received) + 1
      ensures trace == old(trace) + [ReceiveData]
    {
      data := rx(received);
      received := received + 1;
      trace := trace + [ReceiveData];
    }

    method ClearAckFailure()
      modifies this`trace
      ensures trace == old(trace) + [ClearAF]
    {
      trace := trace + [ClearAF];
    }

    /** Phase `j` of the run of `steps` begun at poll `c0` after the events
        `t0` is about to begin: phases 0 to j - 1 have all seen their
        conditions and taken their actions. */
    ghost predicate At(steps: seq<Step>, budget: nat, c0: nat, t0: seq<Event>, j: nat)
      requires j <= |steps|
      reads this
    {
      && Reached(status, steps, 0, c0, budget, j, clock)
      && trace == t0 + Done(steps, j)
    }

    /** The run of `steps` begun at poll `c0` after the events `t0` is over,
        having passed at least `lo` and fewer than `hi` phases. */
    ghost predicate Ended(op: Op, steps: seq<Step>, budget: nat, c0: nat, t0: seq<Event>, lo: nat, hi: nat)
      reads this
    {
      var p := Run(status, steps, 0, c0, budget);
      && lo <= p.passed < hi
      && clock == p.clock
      && trace == t0 + Transcript(op, steps, p.passed)
    }

    /** The wait of phase `phase` of `steps`, whose actions are `acts`. */
    method Phase(c: Cond, ghost acts: seq<Event>, budget: nat, op: Op, phase: nat,
                 ghost steps: seq<Step>, ghost c0: nat, ghost t0: seq<Event>)
      returns (met: bool)
      requires phase < |steps| && steps[phase] == Step(c, acts)
      requires At(steps, budget, c0, t0, phase)
      modifies this`clock, this`trace
      ensures met ==> Reached(status, steps, 0, c0, budget, phase + 1, clock)
      ensures met ==> trace + acts == t0 + Done(steps, phase + 1)
      ensures !met ==> Ended(op, steps, budget, c0, t0, phase, phase + 1)
    {
      ghost var before := clock;
      met := Await(c, budget, op, phase);
      if met {
        ReachedNext(status, steps, 0, c0, budget, phase, before, clock - before);
        DoneNext(t0, steps, phase);
      } else {
        ReachedExpired(status, steps, c0, budget, phase, before);
        AppendAssoc(t0, Done(steps, phase), [Timeout(op, phase)]);
      }
    }

    /** Phases 0-2, common to both transactions: wait for the bus to be idle,
        START; wait for EV5, address the device for writing; wait for EV6,
        send the register byte. */
    method Open(deviceAddress: u8, registerAddr: u8, budget: nat, op: Op,
                ghost steps: seq<Step>, ghost c0: nat, ghost t0: seq<Event>)
      returns (ok: bool)
      requires 3 <= |steps| && steps[..3] == Opening(deviceAddress, registerAddr)
      requires At(steps, budget, c0, t0, 0)
      modifies this`clock, this`trace
      ensures ok ==> At(steps, budget, c0, t0, 3)
      ensures !ok ==> Ended(op, steps, budget, c0, t0, 0, 3)
    {
      assert steps[0] == steps[..3][0] && steps[1] == steps[..3][1] && steps[2] == steps[..3][2];
      ok := Phase(BusIdle, [Start], budget, op, 0, steps, c0, t0);
      if !ok { return; }
      GenerateStart();

      ok := Phase(MasterModeSelected, [SendAddress(deviceAddress, Transmitter)], budget, op, 1, steps, c0, t0);
      if !ok { return; }
      Send7bitAddress(deviceAddress, Transmitter);

      ok := Phase(TransmitterModeSelected, [SendData(registerAddr)], budget, op, 2, steps, c0, t0);
      if !ok { return; }
      WriteDataRegister(registerAddr);
    }

    /** Phases 3-5 of a read: wait for BTF, repeated START; wait for EV5,
        address the device for reading; wait for ADDR, disable
        acknowledgement, read SR2 (clearing ADDR), STOP. */
    method Turnaround(deviceAddress: u8, budget: nat, ghost registerAddr: u8,
                      ghost steps: seq<Step>, ghost c0: nat, ghost t0: seq<Event>)
      returns (ok: bool)
      requires |steps| == 8
      requires steps[3] == Step(ByteTransferFinished, [Start])
      requires steps[4] == Step(MasterModeSelected, [SendAddress(deviceAddress, Receiver)])
      requires steps[5] == Step(AddressSent, [AckConfig(false), ReadSR2, Stop])
      requires At(steps, budget, c0, t0, 3)
      modifies this`clock, this`trace, this`ackEnabled
      ensures ok ==> At(steps, budget, c0, t0, 6) && !ackEnabled
      ensures !ok ==> Ended(ReadOp, steps, budget, c0, t0, 3, 6) && ackEnabled == old(ackEnabled)
    {
      ok := Phase(ByteTransferFinished, [Start], budget, ReadOp, 3, steps, c0, t0);
      if !ok { return; }
      GenerateStart();

      ok := Phase(MasterModeSelected, [SendAddress(deviceAddress, Receiver)], budget, ReadOp, 4, steps, c0, t0);
      if !ok { return; }
      Send7bitAddress(deviceAddress, Receiver);

      ok := Phase(AddressSent, [AckConfig(false), ReadSR2, Stop], budget, ReadOp, 5, steps, c0, t0);
      if !ok { return; }
      ghost var t5 := trace;
      AcknowledgeConfig(false);
      ReadStatus2();
      GenerateStop();
      AppendEach(t5, AckConfig(false), ReadSR2, Stop);
    }

    /** Phases 6-7 of a read: wait for RXNE, take the byte; wait for the STOP
        bit to clear, re-enable acknowledgement, clear AF. */
    method Receive(budget: nat, ghost deviceAddress: u8, ghost registerAddr: u8,
                   ghost steps: seq<Step>, ghost c0: nat, ghost t0: seq<Event>)
      returns (ok: bool, data: u8)
      requires |steps| == 8
      requires steps[6] == Step(RxNotEmpty, [ReceiveData])
      requires steps[7] == Step(StopCleared, [AckConfig(true), ClearAF])
      requires At(steps, budget, c0, t0, 6)
      modifies this`clock, this`trace, this`received, this`ackEnabled
      ensures ok ==> Ended(ReadOp, steps, budget, c0, t0, 8, 9)
      ensures ok ==> received == old(received) + 1 && ackEnabled && data == rx(old(received))
      ensures !ok ==> Ended(ReadOp, steps, budget, c0, t0, 6, 8) && ackEnabled == old(ackEnabled)
      ensures !ok ==> received == old(received) + Run(status, steps, 0, c0, budget).passed - 6
    {
      data := 0;
      ok := Phase(RxNotEmpty, [ReceiveData], budget, ReadOp, 6, steps, c0, t0);
      if !ok { return; }
      var byte := ReadDataRegister();

      ok := Phase(StopCleared, [AckConfig(true), ClearAF], budget, ReadOp, 7, steps, c0, t0);
      if !ok { return; }
      ghost var t7 := trace;
      AcknowledgeConfig(true);
      ClearAckFailure();
      AppendBoth(t7, AckConfig(true), ClearAF);
      ReachedRun(status, steps, 0, c0, budget, 8, clock);
      data := byte;
    }

    /** The effect of one `readRegister(dev, reg)` run with budget `budget`
        that returned `result`: the phases it passed decide the polls made,
        the events recorded, the bytes taken, the acknowledge setting left
        behind and the value returned. */
    twostate predicate ReadTransaction(dev: u8, reg: u8, budget: nat, result: u32)
      reads this
    {
      var steps := ReadSteps(dev, reg);
      var p := Run(status, steps, 0, old(clock), budget);
      && clock == p.clock
      && trace == old(trace) + Transcript(ReadOp, steps, p.passed)
      && received == old(received) + (if p.passed >= 7 then 1 else 0)
      && ackEnabled == (if p.passed <= 5 then old(ackEnabled) else p.passed == 8)
      && result == (if p.passed == 8 then rx(old(received)) else 0)
      && calls == old(calls) + [ReadCall(dev, reg, result)]
    }

    /** The effect of one `writeRegister(dev, reg, val)` run with budget
        `budget`: it returns 0 whatever happens. */
    twostate predicate WriteTransaction(dev: u8, reg: u8, val: u8, budget: nat)
      reads this
    {
      var steps := WriteSteps(dev, reg, val);
      var p := Run(status, steps, 0, old(clock), budget);
      && clock == p.clock
      && trace == old(trace) + Transcript(WriteOp, steps, p.passed)
      && calls == old(calls) + [WriteCall(dev, reg, val, 0)]
    }

    /** `readRegister`: reads one byte from register `registerAddr` of device
        `deviceAddress` in the combined format; 0 on any timeout. */
    method ReadRegister(deviceAddress: u8, registerAddr: u8, budget: nat := MyTimeout) returns (result: u32)
      modifies this`clock, this`received, this`ackEnabled, this`trace, this`calls
      ensures ReadTransaction(deviceAddress, registerAddr, budget, result)
    {
      ghost var steps := ReadSteps(deviceAddress, registerAddr);
      ghost var c0, t0 := clock, trace;
      OpeningPrefix(deviceAddress, registerAddr, 0);
      assert trace == t0 + Done(steps, 0);
      var byte: u8 := 0;
      var ok := Open(deviceAddress, registerAddr, budget, ReadOp, steps, c0, t0);
      if ok {
        ok := Turnaround(deviceAddress, budget, registerAddr, steps, c0, t0);
        if ok {
          var data;
          ok, data := Receive(budget, deviceAddress, registerAddr, steps, c0, t0);
          if ok {
            byte := data;
          }
        }
      }
      result := byte;
      calls := calls + [ReadCall(deviceAddress, registerAddr, byte)];
    }

    /** `writeRegister`: writes `registerValue` to register `registerAddr` of
        device `deviceAddress`; returns 0 whatever happens. */
    method WriteRegister(deviceAddress: u8, registerAddr: u8, registerValue: u8, budget: nat := MyTimeout)
      returns (result: u32)
      modifies this`clock, this`trace, this`calls
      ensures result == 0
      ensures WriteTransaction(deviceAddress, registerAddr, registerValue, budget)
    {
      ghost var steps := WriteSteps(deviceAddress, registerAddr, registerValue);
      ghost var c0, t0 := clock, trace;
      OpeningPrefix(deviceAddress, registerAddr, registerValue);
      assert trace == t0 + Done(steps, 0);
      result := 0;
      label phases: {
        var ok := Open(deviceAddress, registerAddr, budget, WriteOp, steps, c0, t0);
        if !ok { break phases; }

        ok := Phase(ByteTransmitting, [SendData(registerValue)], budget, WriteOp, 3, steps, c0, t0);
        if !ok { break phases; }
        WriteDataRegister(registerValue);

        ok := Phase(ByteTransferFinished, [Stop], budget, WriteOp, 4, steps, c0, t0);
        if !ok { break phases; }
        GenerateStop();
        ReachedRun(status, steps, 0, c0, budget, 5, clock);
      }
      calls := calls + [WriteCall(deviceAddress, registerAddr, registerValue, result)];
    }
  }

  /** A wait result seen `k` polls later. */
  function Delay(w: WaitResult, k: nat): WaitResult
  {
    match w
    case Met(n) => Met(n + k)
    case Expired => Expired
  }
}
