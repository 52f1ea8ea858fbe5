/**
 * The LSM9DS0 sensor façade of lsm9ds0_driver.c over the bus engine: the
 * register pass-throughs that fix the device address, the three init
 * routines with their fixed register writes, and the three read routines
 * that fetch six bytes and assemble them into signed 16-bit samples.
 */
module Lsm9ds0Driver {
  import opened I2CProtocol
  import opened I2CDriver

  /** A signed 16-bit sample (`int16_t`). */
  type int16 = x: int | -0x8000 <= x < 0x8000

  /** Bus address of the accelerometer/magnetometer die. */
  const XmAddress: u8 := 0x3D
  /** Bus address of the gyroscope die. */
  const GAddress: u8 := 0xD5

  // Register addresses. Their values come from lsm9ds0_regs.h, which is not
  // part of this model: they stay symbolic, and every property below holds
  // whatever they are.
  const CtrlReg1G: u8
  const CtrlReg2G: u8
  const CtrlReg3G: u8
  const CtrlReg4G: u8
  const CtrlReg5G: u8
  const CtrlReg0Xm: u8
  const CtrlReg1Xm: u8
  const CtrlReg2Xm: u8
  const CtrlReg3Xm: u8
  const CtrlReg4Xm: u8
  const CtrlReg5Xm: u8
  const CtrlReg6Xm: u8
  const CtrlReg7Xm: u8
  const IntCtrlRegM: u8
  const OutXLG: u8
  const OutXHG: u8
  const OutYLG: u8
  const OutYHG: u8
  const OutZLG: u8
  const OutZHG: u8
  const OutXLA: u8
  const OutXHA: u8
  const OutYLA: u8
  const OutYHA: u8
  const OutZLA: u8
  const OutZHA: u8
  const OutXLM: u8
  const OutXHM: u8
  const OutYLM: u8
  const OutYHM: u8
  const OutZLM: u8
  const OutZHM: u8

  // ---------------------------------------------------------------------------
  // Register pass-throughs

  /** `gWriteByte`: one register write to the gyroscope; the result is dropped. */
  method GWriteByte(bus: Bus, address: u8, data: u8)
    modifies bus`clock, bus`trace, bus`calls
    ensures bus.WriteTransaction(GAddress, address, data, MyTimeout)
  {
    var _ := bus.WriteRegister(GAddress, address, data);
  }

  /** `xmWriteByte`: one register write to the accelerometer/magnetometer. */
  method XmWriteByte(bus: Bus, address: u8, data: u8)
    modifies bus`clock, bus`trace, bus`calls
    ensures bus.WriteTransaction(XmAddress, address, data, MyTimeout)
  {
    var _ := bus.WriteRegister(XmAddress, address, data);
  }

  /** `gReadByte`: one register read from the gyroscope, its 32-bit result
      narrowed to a byte. The narrowing loses nothing: the byte returned is
      the result the transaction recorded. */
  method GReadByte(bus: Bus, address: u8) returns (b: u8)
    modifies bus`clock, bus`received, bus`ackEnabled, bus`trace, bus`calls
    ensures bus.ReadTransaction(GAddress, address, MyTimeout, b)
  {
    var r := bus.ReadRegister(GAddress, address);
    b := r % 0x100;
  }

  /** `xmReadByte`: one register read from the accelerometer/magnetometer,
      narrowed to a byte without loss. */
  method XmReadByte(bus: Bus, address: u8) returns (b: u8)
    modifies bus`clock, bus`received, bus`ackEnabled, bus`trace, bus`calls
    ensures bus.ReadTransaction(XmAddress, address, MyTimeout, b)
  {
    var r := bus.ReadRegister(XmAddress, address);
    b := r % 0x100;
  }

  // ---------------------------------------------------------------------------
  // Init routines

  /** `initGyro`: normal mode with all axes on, then CTRL_REG2_G to
      CTRL_REG5_G cleared, all on the gyroscope. */
  method InitGyro(bus: Bus)
    modifies bus`clock, bus`trace, bus`calls
    ensures bus.calls == old(bus.calls) +
      [ WriteCall(GAddress, CtrlReg1G, 0x0F, 0),
        WriteCall(GAddress, CtrlReg2G, 0x00, 0),
        WriteCall(GAddress, CtrlReg3G, 0x00, 0),
        WriteCall(GAddress, CtrlReg4G, 0x00, 0),
        WriteCall(GAddress, CtrlReg5G, 0x00, 0) ]
  {
    ghost var k0 := bus.calls;
    GWriteByte(bus, CtrlReg1G, 0x0F);
    GWriteByte(bus, CtrlReg2G, 0x00);
    GWriteByte(bus, CtrlReg3G, 0x00);
    GWriteByte(bus, CtrlReg4G, 0x00);
    GWriteByte(bus, CtrlReg5G, 0x00);
    Appended5(k0, WriteCall(GAddress, CtrlReg1G, 0x0F, 0), WriteCall(GAddress, CtrlReg2G, 0x00, 0), WriteCall(GAddress, CtrlReg3G, 0x00, 0), WriteCall(GAddress, CtrlReg4G, 0x00, 0), WriteCall(GAddress, CtrlReg5G, 0x00, 0));
  }

  /** `initAccel`: FIFO off, 100 Hz with all axes on, 2 g scale, CTRL_REG3_XM
      cleared. */
  method InitAccel(bus: Bus)
    modifies bus`clock, bus`trace, bus`calls
    ensures bus.calls == old(bus.calls) +
      [ WriteCall(XmAddress, CtrlReg0Xm, 0x00, 0),
        WriteCall(XmAddress, CtrlReg1Xm, 0x57, 0),
        WriteCall(XmAddress, CtrlReg2Xm, 0x00, 0),
        WriteCall(XmAddress, CtrlReg3Xm, 0x00, 0) ]
  {
    ghost var k0 := bus.calls;
    XmWriteByte(bus, CtrlReg0Xm, 0x00);
    XmWriteByte(bus, CtrlReg1Xm, 0x57);
    XmWriteByte(bus, CtrlReg2Xm, 0x00);
    XmWriteByte(bus, CtrlReg3Xm, 0x00);
    Appended4(k0, WriteCall(XmAddress, CtrlReg0Xm, 0x00, 0), WriteCall(XmAddress, CtrlReg1Xm, 0x57, 0), WriteCall(XmAddress, CtrlReg2Xm, 0x00, 0), WriteCall(XmAddress, CtrlReg3Xm, 0x00, 0));
  }

  /** `initMag`: 100 Hz data rate, 2 gauss scale, continuous conversion,
      CTRL_REG4_XM cleared (after CTRL_REG7_XM), magnetometer interrupts off. */
  method InitMag(bus: Bus)
    modifies bus`clock, bus`trace, bus`calls
    ensures bus.calls == old(bus.calls) +
      [ WriteCall(XmAddress, CtrlReg5Xm, 0x14, 0),
        WriteCall(XmAddress, CtrlReg6Xm, 0x00, 0),
        WriteCall(XmAddress, CtrlReg7Xm, 0x00, 0),
        WriteCall(XmAddress, CtrlReg4Xm, 0x00, 0),
        WriteCall(XmAddress, IntCtrlRegM, 0x00, 0) ]
  {
    ghost var k0 := bus.calls;
    XmWriteByte(bus, CtrlReg5Xm, 0x14);
    XmWriteByte(bus, CtrlReg6Xm, 0x00);
    XmWriteByte(bus, CtrlReg7Xm, 0x00);
    XmWriteByte(bus, CtrlReg4Xm, 0x00);
    XmWriteByte(bus, IntCtrlRegM, 0x00);
    Appended5(k0, WriteCall(XmAddress, CtrlReg5Xm, 0x14, 0), WriteCall(XmAddress, CtrlReg6Xm, 0x00, 0), WriteCall(XmAddress, CtrlReg7Xm, 0x00, 0), WriteCall(XmAddress, CtrlReg4Xm, 0x00, 0), WriteCall(XmAddress, IntCtrlRegM, 0x00, 0));
  }

  // ---------------------------------------------------------------------------
  // Sample assembly

  /** 2 to the power `k`. */
  function Pow2(k: nat): (p: nat)
    ensures p >= 1
  {
    if k == 0 then 1 else 2 * Pow2(k - 1)
  }

  /** Bitwise OR of two non-negative integers, bit by bit from the lowest. */
  function BitOr(a: nat, b: nat): nat
    decreases a + b
  {
    if a == 0 then b
    else if b == 0 then a
    else 2 * BitOr(a / 2, b / 2) + (if a % 2 == 1 || b % 2 == 1 then 1 else 0)
  }

  /** Conversion of a 16-bit pattern to `int16_t`: the value modulo 2^16,
      read as two's complement. For patterns of 0x8000 and above C leaves
      the result implementation-defined; this is the wrap GCC performs on ARM. */
  function Wrap16(w: int): (s: int16)
    requires 0 <= w < 0x10000
    ensures s == w || s == w - 0x10000
  {
    if w < 0x8000 then w else w - 0x10000
  }

  /** `(hi << 8) | lo` stored in an `int16_t`: the 16-bit pattern read as two's
      complement. `hi` is promoted to `int`, so the shift cannot overflow. */
  function Assemble(lo: u8, hi: u8): (s: int16)
    ensures s == if hi < 0x80 then hi * 0x100 + lo else hi * 0x100 + lo - 0x10000
  {
    assert Pow2(8) == 0x100;
    OrDisjoint(hi, lo, 8);
    Wrap16(BitOr(hi * 0x100, lo))
  }

  /** OR-ing a number below 2^k into a multiple of 2^k adds it: the two have
      no bit in common. */
  lemma {:induction false} OrDisjoint(a: nat, b: nat, k: nat)
    requires b < Pow2(k)
    ensures BitOr(a * Pow2(k), b) == a * Pow2(k) + b
    decreases k
  {
    var m := a * Pow2(k);
    if k > 0 && m != 0 && b != 0 {
      assert m == 2 * (a * Pow2(k - 1));
      assert m / 2 == a * Pow2(k - 1) && m % 2 == 0;
      OrDisjoint(a, b / 2, k - 1);
    }
  }

  /** The low and high bytes of a sample, `s & 0xFF` and `(s >> 8) & 0xFF`:
      its two's-complement pattern cut in two. */
  function Split(s: int16): (b: (u8, u8))
  {
    (s % 0x100, (s / 0x100) % 0x100)
  }

  /** Splitting an assembled sample gives back its two bytes. */
  lemma SplitAssemble(lo: u8, hi: u8)
    ensures Split(Assemble(lo, hi)) == (lo, hi)
  {
    var s := Assemble(lo, hi);
    var q := if hi < 0x80 then hi else hi - 0x100;
    assert s == q * 0x100 + lo;
    DivModUnique(s, q, lo);
    assert q % 0x100 == hi;
  }

  /** Every sample is the assembly of its two bytes. */
  lemma AssembleSplit(s: int16)
    ensures Assemble(Split(s).0, Split(s).1) == s
  {
    var q, r := s / 0x100, s % 0x100;
    assert s == q * 0x100 + r;
    assert -0x80 <= q < 0x80;
    assert q % 0x100 == if q >= 0 then q else q + 0x100;
  }

  /** Quotient and remainder by 256 are unique. */
  lemma DivModUnique(s: int, q: int, r: int)
    requires s == q * 0x100 + r && 0 <= r < 0x100
    ensures s / 0x100 == q && s % 0x100 == r
  {
  }

  // ---------------------------------------------------------------------------
  // Read routines

  /** The byte reads and sample assembly of `readGyro`: X_L, X_H, Y_L, Y_H,
      Z_L, Z_H of the gyroscope, each read once in that order into `temp`,
      low bytes in the even slots. */
  method ReadGyro(bus: Bus) returns (x: int16, y: int16, z: int16, ghost temp: seq<u8>)
    modifies bus`clock, bus`received, bus`ackEnabled, bus`trace, bus`calls
    ensures |temp| == 6
    ensures bus.calls == old(bus.calls) +
      [ ReadCall(GAddress, OutXLG, temp[0]), ReadCall(GAddress, OutXHG, temp[1]),
        ReadCall(GAddress, OutYLG, temp[2]), ReadCall(GAddress, OutYHG, temp[3]),
        ReadCall(GAddress, OutZLG, temp[4]), ReadCall(GAddress, OutZHG, temp[5]) ]
    ensures x == Assemble(temp[0], temp[1]) && y == Assemble(temp[2], temp[3]) && z == Assemble(temp[4], temp[5])
  {
    ghost var k0 := bus.calls;
    var t := new u8[6];
    var b0 := GReadByte(bus, OutXLG);
    t[0] := b0;
    var b1 := GReadByte(bus, OutXHG);
    t[1] := b1;
    var b2 := GReadByte(bus, OutYLG);
    t[2] := b2;
    var b3 := GReadByte(bus, OutYHG);
    t[3] := b3;
    var b4 := GReadByte(bus, OutZLG);
    t[4] := b4;
    var b5 := GReadByte(bus, OutZHG);
    t[5] := b5;
    x := Assemble(t[0], t[1]);
    y := Assemble(t[2], t[3]);
    z := Assemble(t[4], t[5]);
    temp := t[..];
    Appended6(k0, ReadCall(GAddress, OutXLG, b0),
              ReadCall(GAddress, OutXHG, b1),
              ReadCall(GAddress, OutYLG, b2),
              ReadCall(GAddress, OutYHG, b3),
              ReadCall(GAddress, OutZLG, b4),
              ReadCall(GAddress, OutZHG, b5));
  }

  /** The byte reads and sample assembly of `readAccel`. */
  method ReadAccel(bus: Bus) returns (x: int16, y: int16, z: int16, ghost temp: seq<u8>)
    modifies bus`clock, bus`received, bus`ackEnabled, bus`trace, bus`calls
    ensures |temp| == 6
    ensures bus.calls == old(bus.calls) +
      [ ReadCall(XmAddress, OutXLA, temp[0]), ReadCall(XmAddress, OutXHA, temp[1]),
        ReadCall(XmAddress, OutYLA, temp[2]), ReadCall(XmAddress, OutYHA, temp[3]),
        ReadCall(XmAddress, OutZLA, temp[4]), ReadCall(XmAddress, OutZHA, temp[5]) ]
    ensures x == Assemble(temp[0], temp[1]) && y == Assemble(temp[2], temp[3]) && z == Assemble(temp[4], temp[5])
  {
    ghost var k0 := bus.calls;
    var t := new u8[6];
    var b0 := XmReadByte(bus, OutXLA);
    t[0] := b0;
    var b1 := XmReadByte(bus, OutXHA);
    t[1] := b1;
    var b2 := XmReadByte(bus, OutYLA);
    t[2] := b2;
    var b3 := XmReadByte(bus, OutYHA);
    t[3] := b3;
    var b4 := XmReadByte(bus, OutZLA);
    t[4] := b4;
    var b5 := XmReadByte(bus, OutZHA);
    t[5] := b5;
    x := Assemble(t[0], t[1]);
    y := Assemble(t[2], t[3]);
    z := Assemble(t[4], t[5]);
    temp := t[..];
    Appended6(k0, ReadCall(XmAddress, OutXLA, b0),
              ReadCall(XmAddress, OutXHA, b1),
              ReadCall(XmAddress, OutYLA, b2),
              ReadCall(XmAddress, OutYHA, b3),
              ReadCall(XmAddress, OutZLA, b4),
              ReadCall(XmAddress, OutZHA, b5));
  }

  /** The byte reads and sample assembly of `readMag`. */
  method ReadMag(bus: Bus) returns (x: int16, y: int16, z: int16, ghost temp: seq<u8>)
    modifies bus`clock, bus`received, bus`ackEnabled, bus`trace, bus`calls
    ensures |temp| == 6
    ensures bus.calls == old(bus.calls) +
      [ ReadCall(XmAddress, OutXLM, temp[0]), ReadCall(XmAddress, OutXHM, temp[1]),
        ReadCall(XmAddress, OutYLM, temp[2]), ReadCall(XmAddress, OutYHM, temp[3]),
        ReadCall(XmAddress, OutZLM, temp[4]), ReadCall(XmAddress, OutZHM, temp[5]) ]
    ensures x == Assemble(temp[0], temp[1]) && y == Assemble(temp[2], temp[3]) && z == Assemble(temp[4], temp[5])
  {
    ghost var k0 := bus.calls;
    var t := new u8[6];
    var b0 := XmReadByte(bus, OutXLM);
    t[0] := b0;
    var b1 := XmReadByte(bus, OutXHM);
    t[1] := b1;
    var b2 := XmReadByte(bus, OutYLM);
    t[2] := b2;
    var b3 := XmReadByte(bus, OutYHM);
    t[3] := b3;
    var b4 := XmReadByte(bus, OutZLM);
    t[4] := b4;
    var b5 := XmReadByte(bus, OutZHM);
    t[5] := b5;
    x := Assemble(t[0], t[1]);
    y := Assemble(t[2], t[3]);
    z := Assemble(t[4], t[5]);
    temp := t[..];
    Appended6(k0, ReadCall(XmAddress, OutXLM, b0),
              ReadCall(XmAddress, OutXHM, b1),
              ReadCall(XmAddress, OutYLM, b2),
              ReadCall(XmAddress, OutYHM, b3),
              ReadCall(XmAddress, OutZLM, b4),
              ReadCall(XmAddress, OutZHM, b5));
  }

  // ---------------------------------------------------------------------------
  // Sequence bookkeeping

  lemma Appended4<T>(s: seq<T>, a: T, b: T, c: T, d: T)
    ensures s + [a] + [b] + [c] + [d] == s + [a, b, c, d]
  {
  }

  lemma Appended5<T>(s: seq<T>, a: T, b: T, c: T, d: T, e: T)
    ensures s + [a] + [b] + [c] + [d] + [e] == s + [a, b, c, d, e]
  {
  }

  lemma Appended6<T>(s: seq<T>, a: T, b: T, c: T, d: T, e: T, f: T)
    ensures s + [a] + [b] + [c] + [d] + [e] + [f] == s + [a, b, c, d, e, f]
  {
  }
}
