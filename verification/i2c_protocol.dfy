/**
 * The bus transaction engine of i2c_driver.c, described as data.
 *
 * A transaction is a fixed table of phases. Each phase polls one peripheral
 * condition with a freshly reset iteration budget and, once the condition is
 * seen, takes a fixed list of bus actions. A phase whose budget runs out emits
 * one diagnostic naming the phase and ends the transaction.
 *
 * The peripheral is an oracle: `status(c, n)` is its answer to the n-th status
 * poll (counted over the lifetime of the bus) when the engine asks whether
 * condition `c` holds.
 */
module I2CProtocol {

  type u8 = x: int | 0 <= x < 0x100
  type u32 = x: int | 0 <= x < 0x1_0000_0000

  /** The iteration budget every wait starts from (`my_timeout`). */
  const MyTimeout: nat := 1000000

  datatype Direction = Transmitter | Receiver

  /** The condition a wait loop waits FOR (the loop spins while it is false). */
  datatype Cond =
    | BusIdle                  // BUSY flag clear
    | MasterModeSelected       // event EV5
    | TransmitterModeSelected  // event EV6, transmitter direction
    | ByteTransmitting         // event EV8 (data register ready for the next byte)
    | ByteTransferFinished     // BTF flag set
    | AddressSent              // ADDR flag set
    | RxNotEmpty               // RXNE flag set
    | StopCleared              // STOP bit of CR1 clear

  datatype Op = ReadOp | WriteOp

  /** What the engine does to the bus, plus its diagnostics. */
  datatype Event =
    | Awaited(cond: Cond)              // a wait loop saw its condition
    | Start                            // START (or repeated START) generated
    | SendAddress(dev: u8, dir: Direction)
    | SendData(data: u8)
    | AckConfig(enabled: bool)         // acknowledge generation switched on/off
    | ReadSR2                          // the SR2 read that clears ADDR
    | Stop                             // STOP generated
    | ReceiveData                      // data register read
    | ClearAF                          // acknowledge-failure flag cleared
    | Timeout(op: Op, phase: nat)      // the phase-tagged timeout diagnostic

  /** One phase: wait for `wait`, then take the actions in `acts`. */
  datatype Step = Step(wait: Cond, acts: seq<Event>)

  /** The three phases (0-2) both transactions open with: wait for the bus
      to be idle, START, address the device for writing, send the register byte. */
  function Opening(dev: u8, reg: u8): (p: seq<Step>)
    ensures |p| == 3
  {
    [ Step(BusIdle, [Start]),
      Step(MasterModeSelected, [SendAddress(dev, Transmitter)]),
      Step(TransmitterModeSelected, [SendData(reg)]) ]
  }

  /** The eight phases (0-7) of `readRegister`: the opening, then a repeated
      START and a one-byte read ended by NACK and STOP. */
  function ReadSteps(dev: u8, reg: u8): (p: seq<Step>)
    ensures |p| == 8
  {
    Opening(dev, reg) +
    [ Step(ByteTransferFinished, [Start]),
      Step(MasterModeSelected, [SendAddress(dev, Receiver)]),
      Step(AddressSent, [AckConfig(false), ReadSR2, Stop]),
      Step(RxNotEmpty, [ReceiveData]),
      Step(StopCleared, [AckConfig(true), ClearAF]) ]
  }

  /** The five phases (0-4) of `writeRegister`: the opening, the value byte, STOP. */
  function WriteSteps(dev: u8, reg: u8, val: u8): (p: seq<Step>)
    ensures |p| == 5
  {
    Opening(dev, reg) +
    [ Step(ByteTransmitting, [SendData(val)]),
      Step(ByteTransferFinished, [Stop]) ]
  }

  /** Both transactions begin with the opening phases. */
  lemma OpeningPrefix(dev: u8, reg: u8, val: u8)
    ensures ReadSteps(dev, reg)[..3] == Opening(dev, reg)
    ensures WriteSteps(dev, reg, val)[..3] == Opening(dev, reg)
  {
  }

  /** Outcome of one guarded wait: the condition was seen after `polls` polls,
      or the budget ran out. */
  datatype WaitResult = Met(polls: nat) | Expired

  /** Every poll numbered from `lo` up to, not including, `hi` saw `c` unmet. */
  ghost predicate Unmet(status: (Cond, nat) -> bool, c: Cond, lo: nat, hi: nat)
  {
    forall n :: lo <= n < hi ==> !status(c, n)
  }

  /** One wait loop starting at poll number `clock` with `timeout` left:
      poll; if the condition holds, stop; if `timeout` is 0, give up;
      otherwise decrement and poll again. */
  function Wait(status: (Cond, nat) -> bool, c: Cond, clock: nat, timeout: nat): (r: WaitResult)
    // the wait ends at a poll that sees the condition, within timeout + 1 polls
    ensures r.Met? ==> 1 <= r.polls <= timeout + 1 && status(c, clock + r.polls - 1)
    decreases timeout
  {
    if status(c, clock) then Met(1)
    else if timeout == 0 then Expired
    else match Wait(status, c, clock + 1, timeout - 1)
      case Met(k) => Met(k + 1)
      case Expired => Expired
  }

  /** How far a transaction got: the number of phases whose wait saw its
      condition, and the poll clock when it stopped. */
  datatype Progress = Progress(passed: nat, clock: nat)

  /** Runs the waits of phases `k`, `k + 1`, ... of `steps` in order, each
      with a fresh budget `timeout`, up to the first wait that expires. */
  function Run(status: (Cond, nat) -> bool, steps: seq<Step>, k: nat, clock: nat, timeout: nat): (p: Progress)
    requires k <= |steps|
    ensures k + p.passed <= |steps| && clock <= p.clock
    decreases |steps| - k
  {
    if k == |steps| then Progress(0, clock)
    else match Wait(status, steps[k].wait, clock, timeout)
      case Expired => Progress(0, clock + timeout + 1)
      case Met(n) =>
        var rest := Run(status, steps, k + 1, clock + n, timeout);
        Progress(rest.passed + 1, rest.clock)
  }

  /** `p` seen from `k` phases earlier. */
  function Shift(p: Progress, k: nat): Progress
  {
    Progress(p.passed + k, p.clock)
  }

  /** The events of a phase that saw its condition. */
  function Moves(s: Step): seq<Event>
  {
    [Awaited(s.wait)] + s.acts
  }

  /** The events of the first `n` phases of `steps`, all of which saw their
      conditions. */
  function Done(steps: seq<Step>, n: nat): seq<Event>
    requires n <= |steps|
  {
    if n == 0 then [] else Done(steps, n - 1) + Moves(steps[n - 1])
  }

  /** The events of a transaction that passed `passed` phases: the moves of
      those phases and, if a wait expired, the diagnostic naming its phase. */
  function Transcript(op: Op, steps: seq<Step>, passed: nat): seq<Event>
    requires passed <= |steps|
  {
    Done(steps, passed) + if passed < |steps| then [Timeout(op, passed)] else []
  }

  /** Acknowledge generation after `trace`, starting from `ack`. */
  function AckAfter(ack: bool, trace: seq<Event>): bool
    decreases |trace|
  {
    if trace == [] then ack
    else AckAfter(if trace[0].AckConfig? then trace[0].enabled else ack, trace[1..])
  }

  /** `m` phases of `cost` polls each, counted without multiplication. */
  function Times(m: nat, cost: nat): nat
  {
    if m == 0 then 0 else cost + Times(m - 1, cost)
  }

  // ---------------------------------------------------------------------------
  // Properties of waits and of the phase interpreter

  /** A wait that succeeds stops at the FIRST poll that sees its condition. */
  lemma {:induction false} WaitStopsAtFirst(status: (Cond, nat) -> bool, c: Cond, clock: nat, timeout: nat)
    requires Wait(status, c, clock, timeout).Met?
    ensures Unmet(status, c, clock, clock + Wait(status, c, clock, timeout).polls - 1)
    decreases timeout
  {
    if !status(c, clock) {
      WaitStopsAtFirst(status, c, clock + 1, timeout - 1);
    }
  }

  /** A wait gives up exactly when timeout + 1 polls in a row saw the
      condition unmet. */
  lemma {:induction false} WaitExpiresIff(status: (Cond, nat) -> bool, c: Cond, clock: nat, timeout: nat)
    ensures Wait(status, c, clock, timeout).Expired? <==> Unmet(status, c, clock, clock + timeout + 1)
    decreases timeout
  {
    if !status(c, clock) && timeout > 0 {
      WaitExpiresIff(status, c, clock + 1, timeout - 1);
    }
  }

  /** The run of `steps` from phase `k` at poll `clock` passes the `j`
      phases k, ..., k + j - 1 and begins phase k + j at poll `cj`. */
  ghost predicate Reached(status: (Cond, nat) -> bool, steps: seq<Step>, k: nat, clock: nat, timeout: nat, j: nat, cj: nat)
    requires k + j <= |steps|
    decreases j
  {
    if j == 0 then clock == cj
    else match Wait(status, steps[k].wait, clock, timeout)
      case Expired => false
      case Met(n) => Reached(status, steps, k + 1, clock + n, timeout, j - 1, cj)
  }

  /** A run that has reached phase k + j, and whose wait there succeeds,
      reaches the next phase. */
  lemma {:induction false} ReachedNext(status: (Cond, nat) -> bool, steps: seq<Step>, k: nat, clock: nat, timeout: nat, j: nat, cj: nat, n: nat)
    requires k + j < |steps|
    requires Reached(status, steps, k, clock, timeout, j, cj)
    requires Wait(status, steps[k + j].wait, cj, timeout) == Met(n)
    ensures Reached(status, steps, k, clock, timeout, j + 1, cj + n)
    decreases j
  {
    if j > 0 {
      var m := Wait(status, steps[k].wait, clock, timeout).polls;
      ReachedNext(status, steps, k + 1, clock + m, timeout, j - 1, cj, n);
    }
  }

  /** Having reached phase k + j, a run goes on exactly as a run started
      there would. */
  lemma {:induction false} ReachedRun(status: (Cond, nat) -> bool, steps: seq<Step>, k: nat, clock: nat, timeout: nat, j: nat, cj: nat)
    requires k + j <= |steps|
    requires Reached(status, steps, k, clock, timeout, j, cj)
    ensures Run(status, steps, k, clock, timeout) == Shift(Run(status, steps, k + j, cj, timeout), j)
    decreases j
  {
    if j > 0 {
      var m := Wait(status, steps[k].wait, clock, timeout).polls;
      ReachedRun(status, steps, k + 1, clock + m, timeout, j - 1, cj);
    }
  }

  /** A run that has reached phase j, and whose wait there expires, stops
      in phase j once the budget of that wait is spent. */
  lemma ReachedExpired(status: (Cond, nat) -> bool, steps: seq<Step>, clock: nat, timeout: nat, j: nat, cj: nat)
    requires j < |steps|
    requires Reached(status, steps, 0, clock, timeout, j, cj)
    requires Wait(status, steps[j].wait, cj, timeout).Expired?
    ensures Run(status, steps, 0, clock, timeout) == Progress(j, cj + timeout + 1)
  {
    ReachedRun(status, steps, 0, clock, timeout, j, cj);
    RunExpired(status, steps, j, cj, timeout);
  }

  /** Every phase that is entered spends at most timeout + 1 polls: the phases
      that passed and the one that expired, if any. */
  lemma {:induction false} RunPolls(status: (Cond, nat) -> bool, steps: seq<Step>, k: nat, clock: nat, timeout: nat)
    requires k <= |steps|
    ensures var p := Run(status, steps, k, clock, timeout);
      var entered := p.passed + (if k + p.passed < |steps| then 1 else 0);
      entered <= |steps| - k && p.clock - clock <= Times(entered, timeout + 1)
    decreases |steps| - k
  {
    if k < |steps| {
      match Wait(status, steps[k].wait, clock, timeout)
      case Expired =>
      case Met(n) =>
        RunPolls(status, steps, k + 1, clock + n, timeout);
    }
  }

  /** A run whose first wait expires passes no phase and stops after
      timeout + 1 polls. */
  lemma RunExpired(status: (Cond, nat) -> bool, steps: seq<Step>, k: nat, clock: nat, timeout: nat)
    requires k < |steps| && Wait(status, steps[k].wait, clock, timeout).Expired?
    ensures Run(status, steps, k, clock, timeout) == Progress(0, clock + timeout + 1)
  {
  }

  /** The polls bound grows with the number of phases. */
  lemma {:induction false} TimesMonotone(m: nat, n: nat, cost: nat)
    requires m <= n
    ensures Times(m, cost) <= Times(n, cost)
    decreases n
  {
    if m < n {
      TimesMonotone(m, n - 1, cost);
    }
  }

  /** `Times` is multiplication. */
  lemma {:induction false} TimesIsProduct(m: nat, cost: nat)
    ensures Times(m, cost) == m * cost
  {
    if m > 0 {
      TimesIsProduct(m - 1, cost);
      assert m * cost == (m - 1) * cost + cost;
    }
  }

  /** An event occurs among the moves of the first `n` phases iff it is one
      of the moves of one of them. */
  lemma {:induction false} DoneMember(steps: seq<Step>, n: nat, e: Event)
    requires n <= |steps|
    ensures e in Done(steps, n) <==> exists i :: 0 <= i < n && e in Moves(steps[i])
  {
    if n > 0 {
      DoneMember(steps, n - 1, e);
    }
  }

  /** The acknowledge setting after two traces in a row. */
  lemma {:induction false} AckAfterAppend(ack: bool, a: seq<Event>, b: seq<Event>)
    ensures AckAfter(ack, a + b) == AckAfter(AckAfter(ack, a), b)
    decreases |a|
  {
    if a != [] {
      var next := if a[0].AckConfig? then a[0].enabled else ack;
      assert (a + b)[0] == a[0] && (a + b)[1..] == a[1..] + b;
      assert AckAfter(ack, a + b) == AckAfter(next, a[1..] + b);
      assert AckAfter(ack, a) == AckAfter(next, a[1..]);
      AckAfterAppend(next, a[1..], b);
    } else {
      assert a + b == b;
    }
  }

  /** A trace without acknowledge reconfiguration leaves the setting alone. */
  lemma {:induction false} AckAfterUntouched(ack: bool, trace: seq<Event>)
    requires forall i :: 0 <= i < |trace| ==> !trace[i].AckConfig?
    ensures AckAfter(ack, trace) == ack
  {
    if trace != [] {
      AckAfterUntouched(ack, trace[1..]);
    }
  }

  /** An event that is not a reconfiguration, then a reconfiguration to `e`,
      then none: the setting ends as `e`. */
  lemma AckAfterSwitch(ack: bool, first: Event, e: bool, rest: seq<Event>)
    requires !first.AckConfig?
    requires forall i :: 0 <= i < |rest| ==> !rest[i].AckConfig?
    ensures AckAfter(ack, [first, AckConfig(e)] + rest) == e
  {
    var t := [first, AckConfig(e)] + rest;
    assert t[1..] == [AckConfig(e)] + rest && t[1..][1..] == rest;
    AckAfterUntouched(e, rest);
  }

  lemma AppendAssoc<T>(a: seq<T>, b: seq<T>, c: seq<T>)
    ensures a + (b + c) == a + b + c
  {
  }

  /** A trace that has recorded the first n phases, followed by the wait and
      the actions of phase n, has recorded the first n + 1. */
  lemma DoneNext(t0: seq<Event>, steps: seq<Step>, n: nat)
    requires n < |steps|
    ensures t0 + Done(steps, n) + [Awaited(steps[n].wait)] + steps[n].acts == t0 + Done(steps, n + 1)
  {
    var d, m := Done(steps, n), Moves(steps[n]);
    assert Done(steps, n + 1) == d + m;
    AppendAssoc(t0, d, m);
    AppendAssoc(t0 + d, [Awaited(steps[n].wait)], steps[n].acts);
  }

  /** Events appended one at a time are the events appended together. */
  lemma AppendEach(t: seq<Event>, a: Event, b: Event, c: Event)
    ensures t + [a] + [b] + [c] == t + [a, b, c]
  {
  }

  /** Two events appended one at a time are the two appended together. */
  lemma AppendBoth(t: seq<Event>, a: Event, b: Event)
    ensures t + [a] + [b] == t + [a, b]
  {
  }
}
