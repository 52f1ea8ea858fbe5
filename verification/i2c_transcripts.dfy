/**
 * What the event transcripts of `readRegister` and `writeRegister` say about
 * the bus: the exact event order of a successful transaction, the single
 * phase-tagged diagnostic that ends a failed one, which failures leave STOP
 * unsent or acknowledgement disabled, and how many polls a transaction can
 * make at most.
 */
module I2CTranscripts {
  import opened I2CProtocol

  /** No phase of `steps` lists a diagnostic among its actions. */
  ghost predicate Quiet(steps: seq<Step>)
  {
    forall i, j :: 0 <= i < |steps| && 0 <= j < |steps[i].acts| ==> !steps[i].acts[j].Timeout?
  }

  /** The moves of phases that all saw their conditions hold no diagnostic. */
  lemma {:induction false} DoneQuiet(steps: seq<Step>, n: nat)
    requires Quiet(steps) && n <= |steps|
    ensures forall i :: 0 <= i < |Done(steps, n)| ==> !Done(steps, n)[i].Timeout?
  {
    if n > 0 {
      DoneQuiet(steps, n - 1);
      var prev, last := Done(steps, n - 1), Moves(steps[n - 1]);
      assert Done(steps, n) == prev + last;
      forall i | 0 <= i < |Done(steps, n)|
        ensures !Done(steps, n)[i].Timeout?
      {
        if i >= |prev| {
          var j := i - |prev|;
          if j > 0 {
            assert last[j] == steps[n - 1].acts[j - 1];
          }
        }
      }
    }
  }

  /** A transaction that stops in phase `passed` ends with exactly one
      diagnostic, the one naming that phase: nothing follows it, and a
      transaction that passes every phase emits none. */
  lemma TimeoutIsLastAndOnly(op: Op, steps: seq<Step>, passed: nat)
    requires Quiet(steps) && passed <= |steps|
    ensures var t := Transcript(op, steps, passed);
      && (forall i :: 0 <= i < |t| ==> (t[i].Timeout? <==> passed < |steps| && i == |t| - 1))
      && (passed < |steps| ==> t[|t| - 1] == Timeout(op, passed))
  {
    DoneQuiet(steps, passed);
  }

  lemma ReadStepsQuiet(dev: u8, reg: u8)
    ensures Quiet(ReadSteps(dev, reg))
  {
  }

  lemma WriteStepsQuiet(dev: u8, reg: u8, val: u8)
    ensures Quiet(WriteSteps(dev, reg, val))
  {
  }

  /** The events of the opening phases, common to both transactions. */
  lemma {:induction false} OpeningMoves(steps: seq<Step>, dev: u8, reg: u8)
    requires 3 <= |steps| && steps[..3] == Opening(dev, reg)
    ensures Done(steps, 3) ==
      [ Awaited(BusIdle), Start,
        Awaited(MasterModeSelected), SendAddress(dev, Transmitter),
        Awaited(TransmitterModeSelected), SendData(reg) ]
  {
    assert steps[0] == steps[..3][0] && steps[1] == steps[..3][1] && steps[2] == steps[..3][2];
    assert Done(steps, 1) == [Awaited(BusIdle), Start];
    assert Done(steps, 2) == Done(steps, 1) + [Awaited(MasterModeSelected), SendAddress(dev, Transmitter)];
    assert Done(steps, 3) == Done(steps, 2) + [Awaited(TransmitterModeSelected), SendData(reg)];
  }

  /** Every event of a successful read, in order: a START, the address for
      writing, the register byte, the wait for BTF, a repeated START, the
      address for reading, then NACK, the SR2 read and STOP before the wait
      for RXNE, and finally acknowledgement re-enabled before AF is cleared. */
  lemma {:induction false} ReadSuccess(dev: u8, reg: u8)
    ensures Transcript(ReadOp, ReadSteps(dev, reg), 8) ==
      [ Awaited(BusIdle), Start,
        Awaited(MasterModeSelected), SendAddress(dev, Transmitter),
        Awaited(TransmitterModeSelected), SendData(reg),
        Awaited(ByteTransferFinished), Start,
        Awaited(MasterModeSelected), SendAddress(dev, Receiver),
        Awaited(AddressSent), AckConfig(false), ReadSR2, Stop,
        Awaited(RxNotEmpty), ReceiveData,
        Awaited(StopCleared), AckConfig(true), ClearAF ]
  {
    var s := ReadSteps(dev, reg);
    OpeningPrefix(dev, reg, 0);
    OpeningMoves(s, dev, reg);
    assert Done(s, 4) == Done(s, 3) + [Awaited(ByteTransferFinished), Start];
    assert Done(s, 5) == Done(s, 4) + [Awaited(MasterModeSelected), SendAddress(dev, Receiver)];
    assert Done(s, 6) == Done(s, 5) + [Awaited(AddressSent), AckConfig(false), ReadSR2, Stop];
    assert Done(s, 7) == Done(s, 6) + [Awaited(RxNotEmpty), ReceiveData];
    assert Done(s, 8) == Done(s, 7) + [Awaited(StopCleared), AckConfig(true), ClearAF];
  }

  /** A successful read generates START exactly twice: first, and again
      after the register byte has been sent and BTF seen. */
  lemma ReadStartsTwice(dev: u8, reg: u8)
    ensures var t := Transcript(ReadOp, ReadSteps(dev, reg), 8);
      forall i :: 0 <= i < |t| ==> (t[i] == Start <==> i == 1 || i == 7)
  {
    ReadSuccess(dev, reg);
  }

  /** Every event of a successful write, in order: one START, the address for
      writing, the register byte, the value byte once the data register is
      free, and STOP only after BTF, with nothing awaited after it. */
  lemma {:induction false} WriteSuccess(dev: u8, reg: u8, val: u8)
    ensures Transcript(WriteOp, WriteSteps(dev, reg, val), 5) ==
      [ Awaited(BusIdle), Start,
        Awaited(MasterModeSelected), SendAddress(dev, Transmitter),
        Awaited(TransmitterModeSelected), SendData(reg),
        Awaited(ByteTransmitting), SendData(val),
        Awaited(ByteTransferFinished), Stop ]
  {
    var s := WriteSteps(dev, reg, val);
    OpeningPrefix(dev, reg, val);
    OpeningMoves(s, dev, reg);
    assert Done(s, 4) == Done(s, 3) + [Awaited(ByteTransmitting), SendData(val)];
    assert Done(s, 5) == Done(s, 4) + [Awaited(ByteTransferFinished), Stop];
  }

  /** A successful write generates START exactly once, at its beginning. */
  lemma WriteStartsOnce(dev: u8, reg: u8, val: u8)
    ensures var t := Transcript(WriteOp, WriteSteps(dev, reg, val), 5);
      forall i :: 0 <= i < |t| ==> (t[i] == Start <==> i == 1)
  {
    WriteSuccess(dev, reg, val);
  }

  /** A read that times out in phases 0-5 never generates STOP. */
  lemma ReadEarlyTimeoutNoStop(dev: u8, reg: u8, passed: nat)
    requires passed <= 5
    ensures Stop !in Transcript(ReadOp, ReadSteps(dev, reg), passed)
  {
    var s := ReadSteps(dev, reg);
    DoneMember(s, passed, Stop);
  }

  /** A write that times out, in any phase, never generates STOP. */
  lemma WriteTimeoutNoStop(dev: u8, reg: u8, val: u8, passed: nat)
    requires passed < 5
    ensures Stop !in Transcript(WriteOp, WriteSteps(dev, reg, val), passed)
  {
    var s := WriteSteps(dev, reg, val);
    DoneMember(s, passed, Stop);
  }

  /** The acknowledge setting a read transcript leaves behind, replayed from
      `ack`: untouched by a timeout in phases 0-5, disabled by one in phase
      6 or 7, enabled again by a successful read. */
  lemma {:induction false} ReadAck(dev: u8, reg: u8, passed: nat, ack: bool)
    requires passed <= 8
    ensures AckAfter(ack, Transcript(ReadOp, ReadSteps(dev, reg), passed)) ==
      (if passed <= 5 then ack else passed == 8)
  {
    var s := ReadSteps(dev, reg);
    var tail: seq<Event> := if passed < 8 then [Timeout(ReadOp, passed)] else [];
    ReadAckDone(dev, reg, passed, ack);
    AckAfterAppend(ack, Done(s, passed), tail);
    AckAfterUntouched(AckAfter(ack, Done(s, passed)), tail);
  }

  lemma {:induction false} ReadAckDone(dev: u8, reg: u8, n: nat, ack: bool)
    requires n <= 8
    ensures AckAfter(ack, Done(ReadSteps(dev, reg), n)) == (if n <= 5 then ack else n == 8)
  {
    if n > 0 {
      var s := ReadSteps(dev, reg);
      ReadAckDone(dev, reg, n - 1, ack);
      AckAfterAppend(ack, Done(s, n - 1), Moves(s[n - 1]));
      var before := AckAfter(ack, Done(s, n - 1));
      if n == 6 || n == 8 {
        var e := n == 8;
        var m := Moves(s[n - 1]);
        assert m == [m[0], AckConfig(e)] + m[2..];
        AckAfterSwitch(before, m[0], e, m[2..]);
      } else {
        AckAfterUntouched(before, Moves(s[n - 1]));
      }
    }
  }

  /** Every phase entered costs at most timeout + 1 polls, so a whole
      transaction makes at most |steps| * (timeout + 1) polls. */
  lemma PollBound(status: (Cond, nat) -> bool, steps: seq<Step>, clock: nat, timeout: nat)
    ensures Run(status, steps, 0, clock, timeout).clock - clock <= |steps| * (timeout + 1)
  {
    var p := Run(status, steps, 0, clock, timeout);
    var entered := p.passed + (if p.passed < |steps| then 1 else 0);
    RunPolls(status, steps, 0, clock, timeout);
    TimesMonotone(entered, |steps|, timeout + 1);
    TimesIsProduct(|steps|, timeout + 1);
  }

  /** One read makes at most 8 * (timeout + 1) polls. */
  lemma ReadPollBound(status: (Cond, nat) -> bool, dev: u8, reg: u8, clock: nat, timeout: nat)
    ensures Run(status, ReadSteps(dev, reg), 0, clock, timeout).clock - clock <= 8 * (timeout + 1)
  {
    PollBound(status, ReadSteps(dev, reg), clock, timeout);
  }

  /** One write makes at most 5 * (timeout + 1) polls. */
  lemma WritePollBound(status: (Cond, nat) -> bool, dev: u8, reg: u8, val: u8, clock: nat, timeout: nat)
    ensures Run(status, WriteSteps(dev, reg, val), 0, clock, timeout).clock - clock <= 5 * (timeout + 1)
  {
    PollBound(status, WriteSteps(dev, reg, val), clock, timeout);
  }

  /** A bus that stays busy through timeout + 1 polls ends the transaction
      in phase 0, after exactly those polls, with only the phase-0
      diagnostic recorded. */
  lemma BusNeverIdle(status: (Cond, nat) -> bool, op: Op, steps: seq<Step>, clock: nat, timeout: nat)
    requires |steps| > 0 && steps[0].wait == BusIdle
    requires Unmet(status, BusIdle, clock, clock + timeout + 1)
    ensures Run(status, steps, 0, clock, timeout) == Progress(0, clock + timeout + 1)
    ensures Transcript(op, steps, 0) == [Timeout(op, 0)]
  {
    WaitExpiresIff(status, BusIdle, clock, timeout);
  }
}
