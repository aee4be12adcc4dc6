/**
 * Model of the TAOS tsl2x7x ambient-light and proximity sensor driver
 * (drivers/staging/iio/light/tsl2x7x.c): the integer lux computation over a
 * table of lux equations, the ALS and proximity calibrations, the register
 * shadow sent to the chip at power-on, the validation of a user lux table,
 * the channel attribute mappings of read_raw/write_raw and the chip-ID check.
 *
 * Every I2C transfer is an input of the operation that performs it: the
 * result code of a write, or the value (or negative error) of a read.
 */
module Tsl2x7x {
  import opened Common

  const LUX_CALC_OVER_FLOW: int := 65535
  const MAX_SAMPLES_CAL: int := 200
  const MAX_CONFIG_REG: int := 16
  /** Eight lux equations plus the terminating row. */
  const MAX_LUX_TABLE_SIZE: int := 9

  const TRITON_ID: int := 0x00
  const HALIBUT_ID: int := 0x20
  const SWORDFISH_ID: int := 0x30

  /** Offsets of the configuration registers held in the shadow. */
  const CNTRL: int := 0x00
  const ALS_TIME: int := 0x01
  const PRX_TIME: int := 0x02
  const WAIT_TIME: int := 0x03
  const ALS_MINTHRESHLO: int := 0x04
  const ALS_MINTHRESHHI: int := 0x05
  const ALS_MAXTHRESHLO: int := 0x06
  const ALS_MAXTHRESHHI: int := 0x07
  const PRX_MINTHRESHLO: int := 0x08
  const PRX_MINTHRESHHI: int := 0x09
  const PRX_MAXTHRESHLO: int := 0x0A
  const PRX_MAXTHRESHHI: int := 0x0B
  const PERSISTENCE: int := 0x0C
  const ALS_PRX_CONFIG: int := 0x0D
  const PRX_COUNT: int := 0x0E
  const GAIN: int := 0x0F

  /** Control and status register bits, by position: masks 0x01, 0x02 and 0x01. */
  const CNTL_PWR_ON_BIT: nat := 0
  const CNTL_ADC_ENBL_BIT: nat := 1
  const STA_ADC_VALID_BIT: nat := 0

  const ALS_GAIN: seq<int> := [1, 8, 16, 120]
  const PROX_GAIN: seq<int> := [1, 2, 4, 8]

  /** The device family members, the driver_data of the I2C id table. */
  const TSL2571: int := 0
  const TSL2671: int := 1
  const TMD2671: int := 2
  const TSL2771: int := 3
  const TMD2771: int := 4
  const TSL2572: int := 5
  const TSL2672: int := 6
  const TMD2672: int := 7
  const TSL2772: int := 8
  const TMD2772: int := 9

  /** Proximity LED settings of the platform header, which is not part of this model. */
  const DIODE1: int := 0x02
  const POWER_100_MA: int := 0

  /** Return codes of the IIO core for read_raw. */
  const IIO_VAL_INT: int := 1
  const IIO_VAL_INT_PLUS_MICRO: int := 2

  datatype ChipStatus = Unknown | Working | Suspended

  /** One lux equation: lux = (ch0 * c0 - ch1 * c1) / scale. */
  datatype LuxEntry = LuxEntry(ch0: int, ch1: int)

  /** The last ALS reading: both channels and the lux derived from them. */
  datatype AlsInfo = AlsInfo(ch0: int, ch1: int, lux: int)

  datatype Settings = Settings(
    alsTime: int, alsGain: int, proxTime: int, proxGain: int, waitTime: int,
    alsProxConfig: int, alsGainTrim: int, alsCalTarget: int,
    alsPersistence: int, alsInterruptEn: bool, alsThreshLow: int, alsThreshHigh: int,
    proxPersistence: int, proxInterruptEn: bool, proxThresLow: int, proxThresHigh: int,
    proxMaxSamplesCal: int, proxPulseCount: int, proxDiode: int, proxPower: int)

  const DEFAULT_SETTINGS: Settings :=
    Settings(255, 0, 255, 0, 255, 0, 1000, 150, 1, false, 200, 256,
             1, false, 0, 512, 30, 8, DIODE1, POWER_100_MA)

  /** The bus replies seen by chip_on: power-on write, the 16 register writes, control write, interrupt clear. */
  datatype OnReplies = OnReplies(power: int, regs: nat -> int, control: int, clear: int)

  /** The three reads of get_lux: the status register and the two ADC channels. */
  datatype LuxReads = LuxReads(status: int, ch0: int, ch1: int)

  datatype ChanType = Light | Intensity | Proximity
  datatype InfoMask = Processed | Raw | CalibScale | CalibBias | IntTime | OtherInfo

  function Max(a: int, b: int): int
  {
    if a < b then b else a
  }

  // ---------------------------------------------------------------------
  // Lux computation (tsl2x7x_get_lux)

  /**
   * One equation of the table, with the gain trim applied. The coefficients
   * are unsigned int, so the products and their difference wrap modulo
   * 2^32; the quotient by the divisor (positive on every chip state) is then
   * stored in the int lux, and C division truncates.
   */
  function RowLux(e: LuxEntry, ch0: int, ch1: int, scale: int, trim: int): int
    requires scale != 0
  {
    CDiv(CDiv((ch0 * e.ch0 - ch1 * e.ch1) % U32_LIMIT, scale) * trim, 1000)
  }

  /**
   * A row whose difference is negative wraps to a large unsigned value: with
   * the first default row and equal channel readings it counts as an
   * overflow at the smallest divisor (als_time 255, gain 1) and gives an
   * in-range lux of 51 at the largest (als_time 0, gain 120).
   */
  lemma NegativeRowWraps()
    ensures 100 * 53000 - 100 * 106000 < 0
    ensures RowLux(LuxEntry(53000, 106000), 100, 100, 2720, 1000) > LUX_CALC_OVER_FLOW
    ensures RowLux(LuxEntry(53000, 106000), 100, 100, 256 * 2720 * 120, 1000) == 51
  {
  }

  datatype Scan = Scan(maxLux: int, overflow: bool)

  /** The loop over the rows from `i` up to the first row with a zero ch0 coefficient. */
  function ScanFrom(t: seq<LuxEntry>, i: nat, ch0: int, ch1: int, scale: int, trim: int): (r: Scan)
    requires scale != 0
    ensures 0 <= r.maxLux <= LUX_CALC_OVER_FLOW
    decreases |t| - i
  {
    if i >= |t| || t[i].ch0 == 0 then Scan(0, false)
    else
      var rest := ScanFrom(t, i + 1, ch0, ch1, scale, trim);
      var lux := RowLux(t[i], ch0, ch1, scale, trim);
      if lux > LUX_CALC_OVER_FLOW then Scan(rest.maxLux, true)
      else Scan(Max(lux, rest.maxLux), rest.overflow)
  }

  /** The lux get_lux reports for a reading strictly between zero and saturation. */
  function TableLux(t: seq<LuxEntry>, ch0: int, ch1: int, scale: int, trim: int): (r: int)
    requires scale != 0
    ensures 0 <= r <= LUX_CALC_OVER_FLOW
  {
    var s := ScanFrom(t, 0, ch0, ch1, scale, trim);
    if s.overflow && s.maxLux == 0 then LUX_CALC_OVER_FLOW else s.maxLux
  }

  /** Row `j` is evaluated by a scan starting at row `i`. */
  ghost predicate Reached(t: seq<LuxEntry>, i: nat, j: nat)
  {
    i <= j < |t| && forall k :: i <= k <= j ==> t[k].ch0 != 0
  }

  lemma {:induction false} ScanUpper(t: seq<LuxEntry>, i: nat, j: nat, ch0: int, ch1: int, scale: int, trim: int)
    requires scale != 0 && Reached(t, i, j)
    requires RowLux(t[j], ch0, ch1, scale, trim) <= LUX_CALC_OVER_FLOW
    ensures RowLux(t[j], ch0, ch1, scale, trim) <= ScanFrom(t, i, ch0, ch1, scale, trim).maxLux
    decreases j - i
  {
    if i < j {
      assert Reached(t, i + 1, j);
      ScanUpper(t, i + 1, j, ch0, ch1, scale, trim);
    }
  }

  lemma {:induction false} ScanAttained(t: seq<LuxEntry>, i: nat, ch0: int, ch1: int, scale: int, trim: int)
    requires scale != 0
    ensures var m := ScanFrom(t, i, ch0, ch1, scale, trim).maxLux;
            m == 0 || exists j: nat :: Reached(t, i, j) && RowLux(t[j], ch0, ch1, scale, trim) == m
    decreases |t| - i
  {
    if i < |t| && t[i].ch0 != 0 {
      ScanAttained(t, i + 1, ch0, ch1, scale, trim);
      var rest := ScanFrom(t, i + 1, ch0, ch1, scale, trim).maxLux;
      var lux := RowLux(t[i], ch0, ch1, scale, trim);
      var m := ScanFrom(t, i, ch0, ch1, scale, trim).maxLux;
      assert Reached(t, i, i);
      if m != 0 && m != lux {
        assert m == rest;
        var j: nat :| Reached(t, i + 1, j) && RowLux(t[j], ch0, ch1, scale, trim) == rest;
        assert Reached(t, i, j);
      }
    }
  }

  lemma {:induction false} ScanOverflow(t: seq<LuxEntry>, i: nat, ch0: int, ch1: int, scale: int, trim: int)
    requires scale != 0
    ensures ScanFrom(t, i, ch0, ch1, scale, trim).overflow
        <==> exists j: nat :: Reached(t, i, j) && RowLux(t[j], ch0, ch1, scale, trim) > LUX_CALC_OVER_FLOW
    decreases |t| - i
  {
    if i < |t| && t[i].ch0 != 0 {
      ScanOverflow(t, i + 1, ch0, ch1, scale, trim);
      assert Reached(t, i, i);
      forall j | Reached(t, i + 1, j) ensures Reached(t, i, j) { }
      forall j | Reached(t, i, j) && j != i ensures Reached(t, i + 1, j) { }
    }
  }

  /**
   * The reported lux is the largest in-range result of the reached equations
   * (zero if none is positive), or the overflow value when some equation
   * overflowed and no other one gave a positive lux.
   */
  lemma TableLuxIsMax(t: seq<LuxEntry>, ch0: int, ch1: int, scale: int, trim: int)
    requires scale != 0
    ensures var r := TableLux(t, ch0, ch1, scale, trim);
            && (forall j: nat :: Reached(t, 0, j) && RowLux(t[j], ch0, ch1, scale, trim) <= LUX_CALC_OVER_FLOW
                  ==> RowLux(t[j], ch0, ch1, scale, trim) <= r)
            && (r == 0 || r == LUX_CALC_OVER_FLOW
                || exists j: nat :: Reached(t, 0, j) && RowLux(t[j], ch0, ch1, scale, trim) == r)
            && (r == LUX_CALC_OVER_FLOW && ScanFrom(t, 0, ch0, ch1, scale, trim).maxLux == 0
                ==> exists j: nat :: Reached(t, 0, j) && RowLux(t[j], ch0, ch1, scale, trim) > LUX_CALC_OVER_FLOW)
  {
    forall j: nat | Reached(t, 0, j) && RowLux(t[j], ch0, ch1, scale, trim) <= LUX_CALC_OVER_FLOW
      ensures RowLux(t[j], ch0, ch1, scale, trim) <= TableLux(t, ch0, ch1, scale, trim)
    {
      ScanUpper(t, 0, j, ch0, ch1, scale, trim);
    }
    ScanAttained(t, 0, ch0, ch1, scale, trim);
    ScanOverflow(t, 0, ch0, ch1, scale, trim);
  }

  /** The loop of get_lux over the lux table; the table ends in a zero row. */
  method MaxTableLux(t: seq<LuxEntry>, ch0: int, ch1: int, scale: int, trim: int) returns (r: int)
    requires scale != 0
    requires |t| > 0 && t[|t| - 1].ch0 == 0
    ensures r == TableLux(t, ch0, ch1, scale, trim)
  {
    var maxLux := 0;
    var overflow := false;
    var i := 0;
    while t[i].ch0 != 0
      invariant 0 <= i < |t|
      invariant 0 <= maxLux
      invariant Max(maxLux, ScanFrom(t, i, ch0, ch1, scale, trim).maxLux) == ScanFrom(t, 0, ch0, ch1, scale, trim).maxLux
      invariant (overflow || ScanFrom(t, i, ch0, ch1, scale, trim).overflow) == ScanFrom(t, 0, ch0, ch1, scale, trim).overflow
      decreases |t| - i
    {
      var lux := RowLux(t[i], ch0, ch1, scale, trim);
      if lux > LUX_CALC_OVER_FLOW {
        overflow := true;
        i := i + 1;
        continue;
      }
      maxLux := Max(maxLux, lux);
      i := i + 1;
    }
    if overflow && maxLux == 0 {
      maxLux := LUX_CALC_OVER_FLOW;
    }
    r := maxLux;
  }

  // ---------------------------------------------------------------------
  // Register shadow (tsl2x7x_chip_on)

  /** The (u8) conversion, and `& 0xFF`, of a two's-complement int. */
  function Byte(x: int): U8
  {
    x % 256
  }

  lemma ByteSmall(x: int)
    requires 0 <= x < 256
    ensures Byte(x) == x
  {
  }

  /** Quotient and remainder by a field width are unique. */
  lemma DivMod(x: int, q: int, r: int, m: int)
    requires m == 4 || m == 16 || m == 64
    requires 0 <= r < m && x == q * m + r
    ensures x / m == q && x % m == r
  {
    if m == 4 {
      assert x == q * 4 + r;
    } else if m == 16 {
      assert x == q * 16 + r;
    } else {
      assert x == q * 64 + r;
    }
  }

  /** `(x >> 8) & 0xFF`, an arithmetic shift. */
  function HighByte(x: int): U8
  {
    (x / 256) % 256
  }

  /** A 16-bit threshold is the concatenation of its two register bytes. */
  lemma {:induction false} ThresholdBytes(x: int)
    requires 0 <= x < 0x1_0000
    ensures Byte(x) + 256 * HighByte(x) == x
  {
    assert x / 256 < 256;
  }

  /** C's `|` on non-negative integers, bit by bit from the least significant. */
  function BitOr(a: nat, b: nat): nat
  {
    if a == 0 && b == 0 then 0
    else 2 * BitOr(a / 2, b / 2) + (if a % 2 == 1 || b % 2 == 1 then 1 else 0)
  }

  lemma {:induction false} BitOrZero(a: nat)
    ensures BitOr(a, 0) == a && BitOr(0, a) == a
  {
    if a != 0 {
      BitOrZero(a / 2);
    }
  }

  /** Bit `k` of `x` is set: `x & (1 << k)` is nonzero. */
  predicate Bit(x: nat, k: nat)
  {
    (x / Pow2(k)) % 2 == 1
  }

  /** Or-ing a value below 2^k into a multiple of 2^k is adding it, in either order. */
  lemma {:induction false} BitOrDisjoint(q: nat, k: nat, lo: nat)
    requires lo < Pow2(k)
    ensures BitOr(q * Pow2(k), lo) == q * Pow2(k) + lo
    ensures BitOr(lo, q * Pow2(k)) == q * Pow2(k) + lo
  {
    if k == 0 {
      BitOrZero(q);
    } else {
      var hi := q * Pow2(k);
      assert Pow2(k) == 2 * Pow2(k - 1);
      assert hi == 2 * (q * Pow2(k - 1));
      BitOrDisjoint(q, k - 1, lo / 2);
      if hi != 0 || lo != 0 {
        assert hi / 2 == q * Pow2(k - 1) && hi % 2 == 0;
      }
    }
  }

  /**
   * `(prox & 0xFF) << 4 | (als & 0xFF)`, stored in a u8 register. Only the low
   * eight bits survive the store, so the shifted operand may be truncated first.
   */
  function PersistenceReg(s: Settings): U8
  {
    Byte(BitOr(Byte(s.proxPersistence) * 16, Byte(s.alsPersistence)))
  }

  /** `als_gain | prox_gain << 2 | diode << 4 | power << 6`, truncated in the same way. */
  function GainReg(s: Settings): U8
  {
    Byte(BitOr(BitOr(BitOr(Byte(s.alsGain), Byte(s.proxGain) * 4), Byte(s.proxDiode) * 16),
               Byte(s.proxPower) * 64))
  }

  /** Both persistence filters fit side by side in PERSISTENCE when each is below 16. */
  lemma PersistenceFields(s: Settings)
    requires 0 <= s.alsPersistence < 16 && 0 <= s.proxPersistence < 16
    ensures PersistenceReg(s) == s.proxPersistence * 16 + s.alsPersistence
    ensures PersistenceReg(s) % 16 == s.alsPersistence && PersistenceReg(s) / 16 == s.proxPersistence
  {
    var p, a := s.proxPersistence, s.alsPersistence;
    ByteSmall(p);
    ByteSmall(a);
    assert Pow2(4) == 16;
    BitOrDisjoint(p, 4, a);
    assert BitOr(p * 16, a) == p * 16 + a;
    ByteSmall(p * 16 + a);
    DivMod(p * 16 + a, p, a, 16);
  }

  /** The four two-bit fields of GAIN do not overlap. */
  lemma GainFields(s: Settings)
    requires 0 <= s.alsGain < 4 && 0 <= s.proxGain < 4 && 0 <= s.proxDiode < 4 && 0 <= s.proxPower < 4
    ensures GainReg(s) == s.alsGain + 4 * s.proxGain + 16 * s.proxDiode + 64 * s.proxPower
    ensures GainReg(s) % 4 == s.alsGain && GainReg(s) / 4 % 4 == s.proxGain
    ensures GainReg(s) / 16 % 4 == s.proxDiode && GainReg(s) / 64 == s.proxPower
  {
    GainPacks(s);
    CrumbsUnpack(s.alsGain, s.proxGain, s.proxDiode, s.proxPower);
  }

  /** Four 2-bit fields packed from the least significant end come back out by division. */
  lemma CrumbsUnpack(a: int, b: int, c: int, d: int)
    requires 0 <= a < 4 && 0 <= b < 4 && 0 <= c < 4 && 0 <= d < 4
    ensures var g := a + 4 * b + 16 * c + 64 * d;
            g % 4 == a && g / 4 % 4 == b && g / 16 % 4 == c && g / 64 == d
  {
    var g := a + 4 * b + 16 * c + 64 * d;
    DivMod(g, b + 4 * c + 16 * d, a, 4);
    DivMod(b + 4 * c + 16 * d, c + 4 * d, b, 4);
    DivMod(g, c + 4 * d, a + 4 * b, 16);
    DivMod(c + 4 * d, d, c, 4);
    DivMod(g, d, a + 4 * b + 16 * c, 64);
  }

  lemma GainPacks(s: Settings)
    requires 0 <= s.alsGain < 4 && 0 <= s.proxGain < 4 && 0 <= s.proxDiode < 4 && 0 <= s.proxPower < 4
    ensures GainReg(s) == s.alsGain + 4 * s.proxGain + 16 * s.proxDiode + 64 * s.proxPower
  {
    var a, b, c, d := s.alsGain, s.proxGain, s.proxDiode, s.proxPower;
    ByteSmall(a);
    ByteSmall(b);
    ByteSmall(c);
    ByteSmall(d);
    assert Pow2(2) == 4 && Pow2(4) == 16 && Pow2(6) == 64;
    var x1 := BitOr(a, b * 4);
    BitOrDisjoint(b, 2, a);
    var x2 := BitOr(x1, c * 16);
    BitOrDisjoint(c, 4, x1);
    var x3 := BitOr(x2, d * 64);
    BitOrDisjoint(d, 6, x2);
    var g := a + 4 * b + 16 * c + 64 * d;
    assert x3 == g;
    ByteSmall(g);
  }

  /** The shadow after chip_on's assignments; CNTRL is never assigned there, GAIN only late. */
  function Shadow(s: Settings, cntrl: U8, gain: U8): (r: seq<U8>)
    ensures |r| == MAX_CONFIG_REG
  {
    [cntrl, Byte(s.alsTime), Byte(s.proxTime), Byte(s.waitTime),
     Byte(s.alsThreshLow), HighByte(s.alsThreshLow), Byte(s.alsThreshHigh), HighByte(s.alsThreshHigh),
     Byte(s.proxThresLow), HighByte(s.proxThresLow), Byte(s.proxThresHigh), HighByte(s.proxThresHigh),
     PersistenceReg(s), Byte(s.alsProxConfig), Byte(s.proxPulseCount), gain]
  }

  /** Reading back the shadow gives the 16-bit thresholds and the byte-sized settings. */
  lemma ShadowDecodes(s: Settings, cntrl: U8, gain: U8)
    requires 0 <= s.alsThreshLow < 0x1_0000 && 0 <= s.alsThreshHigh < 0x1_0000
    requires 0 <= s.proxThresLow < 0x1_0000 && 0 <= s.proxThresHigh < 0x1_0000
    requires 0 <= s.alsTime < 256 && 0 <= s.proxTime < 256 && 0 <= s.waitTime < 256
    ensures var r := Shadow(s, cntrl, gain);
            && r[ALS_MINTHRESHLO] as int + 256 * r[ALS_MINTHRESHHI] as int == s.alsThreshLow
            && r[ALS_MAXTHRESHLO] as int + 256 * r[ALS_MAXTHRESHHI] as int == s.alsThreshHigh
            && r[PRX_MINTHRESHLO] as int + 256 * r[PRX_MINTHRESHHI] as int == s.proxThresLow
            && r[PRX_MAXTHRESHLO] as int + 256 * r[PRX_MAXTHRESHHI] as int == s.proxThresHigh
            && r[ALS_TIME] == s.alsTime && r[PRX_TIME] == s.proxTime && r[WAIT_TIME] == s.waitTime
            && r[GAIN] == gain && r[CNTRL] == cntrl
  {
    ThresholdBytes(s.alsThreshLow);
    ThresholdBytes(s.alsThreshHigh);
    ThresholdBytes(s.proxThresLow);
    ThresholdBytes(s.proxThresHigh);
  }

  /** ADC counts at 75% of full scale. */
  function Saturation(s: Settings): int
  {
    (256 - s.alsTime) * 768
  }

  /** The integration time in microseconds reported through INT_TIME. */
  function IntegrationTime(s: Settings): int
  {
    (256 - s.alsTime) * 2720
  }

  /** The divisor of the lux equations: integration time times ALS gain. */
  function Scale(s: Settings): int
    requires 0 <= s.alsGain < 4
  {
    IntegrationTime(s) * ALS_GAIN[s.alsGain]
  }

  /** The lux divisor vanishes exactly when the saturation level does: at an integration count of 0. */
  lemma ScaleZeroIff(s: Settings)
    requires 0 <= s.alsGain < 4
    ensures Scale(s) == 0 <==> Saturation(s) == 0
    ensures Scale(s) == 0 <==> s.alsTime == 256
  {
    assert ALS_GAIN[s.alsGain] > 0;
  }

  /** For any byte-sized integration count the lux divisor is positive. */
  lemma ScalePositive(s: Settings)
    requires 0 <= s.alsGain < 4 && s.alsTime <= 255
    ensures Scale(s) > 0 && Saturation(s) > 0
  {
    assert 256 - s.alsTime >= 1;
    assert IntegrationTime(s) >= 2720;
  }

  /** Result of chip_on after the register shadow is set: the first failing transfer, else the clear. */
  function OnResult(io: OnReplies): int
  {
    if io.power < 0 then io.power
    else if FirstRegFailure(io.regs, 0) < MAX_CONFIG_REG then io.regs(FirstRegFailure(io.regs, 0))
    else if io.control < 0 then io.control
    else io.clear
  }

  /** Index of the first failing register write from `i`, or 16. */
  function FirstRegFailure(regs: nat -> int, i: nat): (r: nat)
    requires i <= MAX_CONFIG_REG
    ensures i <= r <= MAX_CONFIG_REG
    ensures forall k :: i <= k < r ==> regs(k) >= 0
    ensures r < MAX_CONFIG_REG ==> regs(r) < 0
    decreases MAX_CONFIG_REG - i
  {
    if i == MAX_CONFIG_REG then i
    else if regs(i) < 0 then i
    else FirstRegFailure(regs, i + 1)
  }

  /** chip_on fails with a negative code, or succeeds with the (non-negative) interrupt-clear result. */
  lemma OnResultSign(io: OnReplies)
    ensures OnResult(io) >= 0
        <==> (io.power >= 0 && (forall k :: 0 <= k < MAX_CONFIG_REG ==> io.regs(k) >= 0)
              && io.control >= 0 && io.clear >= 0)
    ensures OnResult(io) >= 0 ==> OnResult(io) == io.clear
  {
    var k := FirstRegFailure(io.regs, 0);
    if k < MAX_CONFIG_REG {
      assert io.regs(k) < 0;
    }
  }

  /** The power-on transfers of chip_on, each stopping the sequence when it fails. */
  method PowerOn(io: OnReplies) returns (ret: int)
    ensures ret == OnResult(io)
  {
    ret := io.power;
    if ret < 0 {
      return;
    }
    ret := WriteShadow(io.regs);
    if ret < 0 {
      return;
    }
    ret := io.control;
    if ret < 0 {
      return;
    }
    ret := io.clear;
  }

  /** The loop writing the 16 shadow registers, stopping at the first failed write. */
  method WriteShadow(regs: nat -> int) returns (ret: int)
    ensures FirstRegFailure(regs, 0) < MAX_CONFIG_REG ==> ret == regs(FirstRegFailure(regs, 0))
    ensures FirstRegFailure(regs, 0) == MAX_CONFIG_REG ==> ret >= 0
  {
    ret := 0;
    var i := 0;
    while i < MAX_CONFIG_REG
      invariant 0 <= i <= MAX_CONFIG_REG
      invariant FirstRegFailure(regs, 0) == FirstRegFailure(regs, i)
      invariant ret >= 0
    {
      ret := regs(i);
      if ret < 0 {
        return;
      }
      i := i + 1;
    }
  }

  // ---------------------------------------------------------------------
  // ALS calibration (tsl2x7x_als_calibrate)

  /**
   * The checks of the CNTRL register value. The ADC-valid test uses the
   * status mask 0x01, which is also the power-on bit already required by the
   * first test, so the -ENODATA branch can never be taken.
   */
  function CalibrateGate(cntrl: U8): (r: int)
    ensures r == 0 <==> cntrl % 4 == 3
    ensures r != 0 ==> r == -EINVAL
  {
    if !(Bit(cntrl, CNTL_ADC_ENBL_BIT) && Bit(cntrl, CNTL_PWR_ON_BIT)) then -EINVAL
    else if !Bit(cntrl, STA_ADC_VALID_BIT) then -ENODATA
    else 0
  }

  function CalibratedTrim(s: Settings, luxVal: int): int
    requires luxVal != 0
  {
    CDiv(s.alsCalTarget * s.alsGainTrim, luxVal)
  }

  /** A successful calibration picks the trim that makes the measured lux read as the target. */
  lemma CalibrationRescales(s: Settings, luxVal: int)
    requires luxVal > 0 && s.alsCalTarget * s.alsGainTrim >= 0
    ensures var q := CalibratedTrim(s, luxVal);
            q * luxVal <= s.alsCalTarget * s.alsGainTrim < (q + 1) * luxVal
  {
    var a := s.alsCalTarget * s.alsGainTrim;
    assert CalibratedTrim(s, luxVal) == a / luxVal;
    assert a == (a / luxVal) * luxVal + a % luxVal;
    assert (a / luxVal + 1) * luxVal == (a / luxVal) * luxVal + luxVal;
  }

  /**
   * What get_lux does, from the stored reading `a0` to `a` with result
   * `ret`: -EBUSY when the chip is not working; a failed status read gives
   * its error; an ADC not yet valid gives the stored lux; a failed channel
   * read gives its error, keeping a channel 0 already read; otherwise both
   * channels are stored and the lux is 65535 at saturation, the stored lux
   * when channel 0 reads 0, and the table's lux otherwise, stored as well.
   */
  predicate LuxRead(a0: AlsInfo, a: AlsInfo, ret: int, working: bool, rd: LuxReads,
                    sat: int, scale: int, table: seq<LuxEntry>, trim: int)
  {
    && (!working ==> ret == -EBUSY && a == a0)
    && (working && rd.status < 0 ==> ret == rd.status && a == a0)
    && (working && 0 <= rd.status && !Bit(rd.status, STA_ADC_VALID_BIT) ==> ret == a0.lux && a == a0)
    && (working && 0 <= rd.status && Bit(rd.status, STA_ADC_VALID_BIT) ==>
          && (rd.ch0 < 0 ==> ret == rd.ch0 && a == a0)
          && (0 <= rd.ch0 && rd.ch1 < 0 ==> ret == rd.ch1 && a == a0.(ch0 := rd.ch0))
          && (0 <= rd.ch0 && 0 <= rd.ch1 ==>
                && a.ch0 == rd.ch0 && a.ch1 == rd.ch1 && ret == a.lux
                && (rd.ch0 >= sat ==> ret == LUX_CALC_OVER_FLOW)
                && (rd.ch0 < sat && rd.ch0 == 0 ==> ret == a0.lux)
                && (0 < rd.ch0 < sat ==> scale != 0 && ret == TableLux(table, rd.ch0, rd.ch1, scale, trim))))
  }

  /** The stored reading `a` is what get_lux leaves from `a0`, whatever it returned. */
  ghost predicate LuxUpdated(a0: AlsInfo, a: AlsInfo, working: bool, rd: LuxReads,
                       sat: int, scale: int, table: seq<LuxEntry>, trim: int)
  {
    exists ret :: LuxRead(a0, a, ret, working, rd, sat, scale, table, trim)
  }

  /**
   * A working chip whose first valid reading after probe has channel 0 at
   * 0 (from the stored reading probe zeroes) gets lux 0 back from get_lux,
   * and the test of als_calibrate as written, which refuses only a negative
   * lux, lets that 0 through to the division by the lux.
   */
  lemma ZeroLuxReachesDivision(a: AlsInfo, ret: int, ch1: int, sat: int, scale: int, table: seq<LuxEntry>, trim: int)
    requires 0 <= ch1 && sat > 0
    requires LuxRead(AlsInfo(0, 0, 0), a, ret, true, LuxReads(1, 0, ch1), sat, scale, table, trim)
    ensures ret == 0 && !(ret < 0)
  {
    assert Bit(1, STA_ADC_VALID_BIT);
  }

  // ---------------------------------------------------------------------
  // Proximity calibration (tsl2x7x_prox_cal)

  function SeqSum(h: seq<int>): int
  {
    if |h| == 0 then 0 else SeqSum(h[..|h| - 1]) + h[|h| - 1]
  }

  /** `max` over the history, starting from INT_MIN. */
  function SeqMax(h: seq<int>): (r: int)
    ensures forall k :: 0 <= k < |h| ==> h[k] <= r
    ensures r == -0x8000_0000 || exists k :: 0 <= k < |h| && h[k] == r
  {
    if |h| == 0 then -0x8000_0000
    else
      var m := SeqMax(h[..|h| - 1]);
      assert forall k :: 0 <= k < |h| - 1 ==> h[..|h| - 1][k] == h[k];
      Max(m, h[|h| - 1])
  }

  lemma {:induction false} SumBelowMax(h: seq<int>, m: int)
    requires forall k :: 0 <= k < |h| ==> h[k] <= m
    ensures SeqSum(h) <= |h| * m
  {
    if |h| > 0 {
      assert forall k :: 0 <= k < |h| - 1 ==> h[..|h| - 1][k] == h[k];
      SumBelowMax(h[..|h| - 1], m);
    }
  }

  lemma {:induction false} SumNonNegative(h: seq<int>)
    requires forall k :: 0 <= k < |h| ==> h[k] >= 0
    ensures SeqSum(h) >= 0
  {
    if |h| > 0 {
      assert forall k :: 0 <= k < |h| - 1 ==> h[..|h| - 1][k] == h[k];
      SumNonNegative(h[..|h| - 1]);
    }
  }

  lemma DivBelow(x: int, n: int, m: int)
    requires n > 0 && x <= n * m
    ensures x / n <= m
  {
  }

  /** The new high proximity threshold: twice the largest sample minus the mean. */
  function ProxThreshold(h: seq<int>): int
    requires |h| > 0
  {
    2 * SeqMax(h) - CDiv(SeqSum(h), |h|)
  }

  /** The calibrated threshold is at least every sample seen. */
  lemma ProxThresholdAboveSamples(h: seq<int>)
    requires |h| > 0 && forall k :: 0 <= k < |h| ==> h[k] >= 0
    ensures forall k :: 0 <= k < |h| ==> h[k] <= ProxThreshold(h)
  {
    var m := SeqMax(h);
    SumBelowMax(h, m);
    SumNonNegative(h);
    DivBelow(SeqSum(h), |h|, m);
    assert m >= 0 by { assert h[0] <= m; }
  }

  /** Index of the first failing proximity read in [i, n), or n. */
  function FirstBadRead(probes: nat -> int, i: nat, n: nat): (r: nat)
    requires i <= n
    ensures i <= r <= n
    ensures forall k :: i <= k < r ==> probes(k) >= 0
    ensures r < n ==> probes(r) < 0
    decreases n - i
  {
    if i == n then n
    else if probes(i) < 0 then i
    else FirstBadRead(probes, i + 1, n)
  }

  function Samples(probes: nat -> int, n: nat): seq<int>
  {
    seq(n, k requires 0 <= k => probes(k))
  }

  /** The second loop of prox_cal: the running sum and maximum of the history. */
  method SumAndMax(h: seq<int>) returns (sum: int, mx: int)
    ensures sum == SeqSum(h) && mx == SeqMax(h)
  {
    sum := 0;
    mx := -0x8000_0000;
    var i := 0;
    while i < |h|
      invariant 0 <= i <= |h|
      invariant sum == SeqSum(h[..i]) && mx == SeqMax(h[..i])
    {
      assert h[..i + 1][..i] == h[..i];
      sum := sum + h[i];
      mx := Max(mx, h[i]);
      i := i + 1;
    }
    assert h[..|h|] == h;
  }

  // ---------------------------------------------------------------------
  // Lux-table store (in_illuminance0_lux_table_store)

  /**
   * `ints` are the integers parsed by get_options (value[1..], their count
   * value[0]): an even count of 4 to 16, the last pair (0, 0).
   */
  predicate LuxTableAccepted(ints: seq<int>)
  {
    var n := |ints|;
    n % 2 == 0 && 4 <= n <= (MAX_LUX_TABLE_SIZE - 1) * 2
    && !(ints[n - 2] != 0 || ints[n - 1] != 0)
  }

  /** The table after memset to zero and memcpy of the parsed pairs. */
  function StoredTable(ints: seq<int>): seq<LuxEntry>
  {
    seq(MAX_LUX_TABLE_SIZE, k requires 0 <= k =>
      if 2 * k + 1 < |ints| then LuxEntry(ints[2 * k], ints[2 * k + 1]) else LuxEntry(0, 0))
  }

  /** An accepted table holds the user's pairs in order, ends in (0, 0) and is terminated within its nine rows. */
  lemma StoredTableTerminated(ints: seq<int>)
    requires LuxTableAccepted(ints)
    ensures var t := StoredTable(ints);
            && |t| == MAX_LUX_TABLE_SIZE && t[MAX_LUX_TABLE_SIZE - 1].ch0 == 0
            && t[|ints| / 2 - 1] == LuxEntry(0, 0)
            && (forall k :: 0 <= k < |ints| / 2 ==> t[k] == LuxEntry(ints[2 * k], ints[2 * k + 1]))
            && (forall k :: |ints| / 2 <= k < MAX_LUX_TABLE_SIZE ==> t[k] == LuxEntry(0, 0))
  {
  }

  /** The lux table loaded for a device family (tsl2x7x_defaults), padded with zero rows. */
  function DefaultTable(target: int): (t: seq<LuxEntry>)
    ensures |t| == MAX_LUX_TABLE_SIZE && t[MAX_LUX_TABLE_SIZE - 1].ch0 == 0
  {
    var rows :=
      if target in {TSL2571, TSL2671, TSL2771} then [LuxEntry(53000, 106000), LuxEntry(31800, 53000)]
      else if target in {TMD2671, TMD2771} then [LuxEntry(24000, 48000), LuxEntry(14400, 24000)]
      else if target in {TSL2572, TSL2672, TSL2772} then [LuxEntry(60000, 112200), LuxEntry(37800, 60000)]
      else [LuxEntry(20000, 35000), LuxEntry(12600, 20000)];
    rows + seq(MAX_LUX_TABLE_SIZE - 2, k => LuxEntry(0, 0))
  }

  // ---------------------------------------------------------------------
  // read_raw / write_raw attribute mappings

  /** write_raw CALIBSCALE on an intensity channel: the ALS gain index of `val`. */
  function AlsGainIndex(val: int): (r: Option<int>)
    ensures r.Some? <==> val in ALS_GAIN
    ensures r.Some? ==> 0 <= r.value < 4 && ALS_GAIN[r.value] == val
  {
    match val
    case 1 => Some(0)
    case 8 => Some(1)
    case 16 => Some(2)
    case 120 => Some(3)
    case _ => None
  }

  /** write_raw CALIBSCALE on any other channel: the proximity gain index of `val`. */
  function ProxGainIndex(val: int): (r: Option<int>)
    ensures r.Some? <==> val in PROX_GAIN
    ensures r.Some? ==> 0 <= r.value < 4 && PROX_GAIN[r.value] == val
  {
    match val
    case 1 => Some(0)
    case 2 => Some(1)
    case 4 => Some(2)
    case 8 => Some(3)
    case _ => None
  }

  /** The settings after a write_raw, or None for -EINVAL. */
  function RawWrite(chan: ChanType, mask: InfoMask, val: int, val2: int, s: Settings): Option<Settings>
  {
    match mask
    case CalibScale =>
      if chan == Intensity then
        (match AlsGainIndex(val) case Some(g) => Some(s.(alsGain := g)) case None => None)
      else
        (match ProxGainIndex(val) case Some(g) => Some(s.(proxGain := g)) case None => None)
    case CalibBias => Some(s.(alsGainTrim := val))
    case IntTime => Some(s.(alsTime := 256 - CDiv(val2, 2720)))
    case _ => None
  }

  /** CALIBSCALE as read_raw reports it: the ALS gain for IIO_LIGHT, else the proximity gain. */
  function CalibscaleAsWritten(chan: ChanType, s: Settings): int
    requires 0 <= s.alsGain < 4 && 0 <= s.proxGain < 4
  {
    if chan == Light then ALS_GAIN[s.alsGain] else PROX_GAIN[s.proxGain]
  }

  /**
   * CALIBSCALE is an attribute of the intensity and proximity channels only,
   * so as written an intensity read returns the proximity gain: writing 120
   * reads back as 1.
   */
  lemma CalibscaleAsWrittenLosesAlsGain()
    ensures var s := RawWrite(Intensity, CalibScale, 120, 0, DEFAULT_SETTINGS);
            && s.Some? && s.value.alsGain == 3
            && CalibscaleAsWritten(Intensity, s.value) == 1
  {
  }

  /** CALIBSCALE read with the channel test write_raw uses. */
  function Calibscale(chan: ChanType, s: Settings): int
    requires 0 <= s.alsGain < 4 && 0 <= s.proxGain < 4
  {
    if chan == Intensity then ALS_GAIN[s.alsGain] else PROX_GAIN[s.proxGain]
  }

  /**
   * Every gain write_raw accepts is read back by the corrected CALIBSCALE,
   * and writing back what it reads leaves the settings unchanged, on every
   * channel.
   */
  lemma CalibscaleRoundTrip(chan: ChanType, val: int, s: Settings)
    requires 0 <= s.alsGain < 4 && 0 <= s.proxGain < 4
    ensures var w := RawWrite(chan, CalibScale, val, 0, s);
            && (w.Some? <==> (if chan == Intensity then val in ALS_GAIN else val in PROX_GAIN))
            && (w.Some? ==> Calibscale(chan, w.value) == val)
    ensures RawWrite(chan, CalibScale, Calibscale(chan, s), 0, s) == Some(s)
  {
  }

  /** The settings-valued read_raw cases: (return code, val, val2). */
  function ReadSetting(chan: ChanType, mask: InfoMask, s: Settings): (int, int, int)
    requires 0 <= s.alsGain < 4 && 0 <= s.proxGain < 4
  {
    match mask
    case CalibScale => (IIO_VAL_INT, CalibscaleAsWritten(chan, s), 0)
    case CalibBias => (IIO_VAL_INT, s.alsGainTrim, 0)
    case IntTime => (IIO_VAL_INT_PLUS_MICRO, 0, IntegrationTime(s))
    case _ => (-EINVAL, 0, 0)
  }

  /**
   * Writing back what INT_TIME and CALIBBIAS read leaves the settings
   * unchanged, and so does writing back the proximity channel's CALIBSCALE.
   */
  lemma ReadWriteRoundTrip(chan: ChanType, s: Settings)
    requires 0 <= s.alsGain < 4 && 0 <= s.proxGain < 4
    ensures var (_, _, t) := ReadSetting(chan, IntTime, s); RawWrite(chan, IntTime, 0, t, s) == Some(s)
    ensures var (_, b, _) := ReadSetting(chan, CalibBias, s); RawWrite(chan, CalibBias, b, 0, s) == Some(s)
    ensures chan == Proximity ==>
            var (_, g, _) := ReadSetting(chan, CalibScale, s); RawWrite(chan, CalibScale, g, 0, s) == Some(s)
  {
    assert CDiv(IntegrationTime(s), 2720) == 256 - s.alsTime;
  }

  /**
   * Writing back the intensity channel's CALIBSCALE as read_raw reports it
   * (the proximity gain) is refused for the gains 2 and 4 and otherwise
   * sets the ALS gain to 1 or 8, whatever it was.
   */
  lemma IntensityWriteBackAsWritten(s: Settings)
    requires 0 <= s.alsGain < 4 && 0 <= s.proxGain < 4
    ensures var (_, g, _) := ReadSetting(Intensity, CalibScale, s);
            && g == PROX_GAIN[s.proxGain]
            && RawWrite(Intensity, CalibScale, g, 0, s)
               == if s.proxGain == 1 || s.proxGain == 2 then None
                  else Some(s.(alsGain := if s.proxGain == 0 then 0 else 1))
  {
  }

  // ---------------------------------------------------------------------
  // Chip identification (tsl2x7x_device_id_verif)

  /** `id & 0xf0` for a two's-complement id. */
  function UpperNibble(id: int): int
  {
    (id / 16) % 16 * 16
  }

  /** The ID register value of a family, or None for an unknown target. */
  function FamilyId(target: int): Option<int>
  {
    if target in {TSL2571, TSL2671, TSL2771} then Some(TRITON_ID)
    else if target in {TMD2671, TMD2771} then Some(HALIBUT_ID)
    else if target in {TSL2572, TSL2672, TMD2672, TSL2772, TMD2772} then Some(SWORDFISH_ID)
    else None
  }

  function DeviceIdVerif(id: int, target: int): (r: int)
    ensures FamilyId(target).None? <==> r == -EINVAL
    ensures FamilyId(target).Some? ==> (r == 1 <==> UpperNibble(id) == FamilyId(target).value) && (r == 0 || r == 1)
  {
    if target in {TSL2571, TSL2671, TSL2771} then (if UpperNibble(id) == TRITON_ID then 1 else 0)
    else if target in {TMD2671, TMD2771} then (if UpperNibble(id) == HALIBUT_ID then 1 else 0)
    else if target in {TSL2572, TSL2672, TMD2672, TSL2772, TMD2772} then (if UpperNibble(id) == SWORDFISH_ID then 1 else 0)
    else -EINVAL
  }

  /** A known family accepts exactly the sixteen ID values sharing its upper nibble. */
  lemma DeviceIdRange(id: U8, target: int)
    requires FamilyId(target).Some?
    ensures DeviceIdVerif(id, target) == 1
        <==> FamilyId(target).value <= id < FamilyId(target).value + 16
  {
    var f := FamilyId(target).value;
    assert f % 16 == 0 && 0 <= f < 256;
    assert UpperNibble(id) == id / 16 * 16;
    if f <= id < f + 16 {
      assert id / 16 == f / 16;
    }
  }

  // ---------------------------------------------------------------------
  // The chip state

  class Chip {
    var status: ChipStatus
    var settings: Settings
    /** The u8 shadow of the 16 configuration registers. */
    const config: array<U8>
    var alsSaturation: int
    var alsGainTimeScale: int
    var als: AlsInfo
    var proxData: int
    var luxTable: seq<LuxEntry>

    predicate Valid()
      reads this, config
    {
      && config.Length == MAX_CONFIG_REG
      && 0 <= settings.alsGain < 4 && 0 <= settings.proxGain < 4
      && |luxTable| == MAX_LUX_TABLE_SIZE && luxTable[MAX_LUX_TABLE_SIZE - 1].ch0 == 0
      && 0 <= als.ch0 < 0x1_0000 && 0 <= als.ch1 < 0x1_0000 && 0 <= als.lux < 0x1_0000
      && 0 <= proxData < 0x1_0000
      && (alsGainTimeScale == 0 <==> alsSaturation == 0)
    }

    /** Probe-time state: nominal settings and the family's lux table. */
    constructor (target: int)
      ensures Valid()
      ensures status == Unknown && settings == DEFAULT_SETTINGS && luxTable == DefaultTable(target)
      ensures config[..] == seq(MAX_CONFIG_REG, k => 0)
      ensures als == AlsInfo(0, 0, 0) && proxData == 0
    {
      status := Unknown;
      settings := DEFAULT_SETTINGS;
      config := new U8[MAX_CONFIG_REG](k => 0);
      alsSaturation := 0;
      alsGainTimeScale := 0;
      als := AlsInfo(0, 0, 0);
      proxData := 0;
      luxTable := DefaultTable(target);
    }

    /** Reads and computes the current lux. */
    method GetLux(rd: LuxReads) returns (ret: int)
      requires Valid()
      requires rd.status < 0x100 && rd.ch0 < 0x1_0000 && rd.ch1 < 0x1_0000
      modifies this
      ensures Valid()
      ensures status == old(status) && settings == old(settings) && luxTable == old(luxTable)
      ensures alsSaturation == old(alsSaturation) && alsGainTimeScale == old(alsGainTimeScale)
      ensures proxData == old(proxData)
      ensures LuxRead(old(als), als, ret, status == Working, rd, alsSaturation, alsGainTimeScale, luxTable, settings.alsGainTrim)
    {
      if status != Working {
        return -EBUSY;
      }
      if rd.status < 0 {
        return rd.status;
      }
      if !Bit(rd.status, STA_ADC_VALID_BIT) {
        return als.lux;
      }
      if rd.ch0 < 0 {
        return rd.ch0;
      }
      als := als.(ch0 := rd.ch0);
      if rd.ch1 < 0 {
        return rd.ch1;
      }
      als := als.(ch1 := rd.ch1);
      var maxLux;
      if als.ch0 >= alsSaturation {
        maxLux := LUX_CALC_OVER_FLOW;
      } else if als.ch0 == 0 {
        return als.lux;
      } else {
        maxLux := MaxTableLux(luxTable, als.ch0, als.ch1, alsGainTimeScale, settings.alsGainTrim);
      }
      als := als.(lux := maxLux);
      ret := maxLux;
    }

    /** Reads the proximity data; `rd` is the 16-bit value read, or the error of the status or data read. */
    method GetProx(rd: int) returns (ret: int)
      requires Valid() && rd < 0x1_0000
      modifies this
      ensures Valid() && ret == rd
      ensures proxData == (if rd < 0 then old(proxData) else rd)
      ensures status == old(status) && settings == old(settings) && luxTable == old(luxTable) && als == old(als)
      ensures alsSaturation == old(alsSaturation) && alsGainTimeScale == old(alsGainTimeScale)
    {
      ret := rd;
      if rd >= 0 {
        proxData := rd;
      }
    }

    /**
     * Computes a new gain trim from one reading. `cntrl` is the CNTRL
     * register read (or its error) and `rd` the reads of get_lux, which is
     * called once the control byte passes; `luxVal` is what get_lux
     * returned (0 when it was not called). A zero reading is refused with
     * -ERANGE before the division.
     */
    method AlsCalibrate(cntrl: int, rd: LuxReads) returns (ret: int, luxVal: int)
      requires Valid()
      requires cntrl < 0x100
      requires rd.status < 0x100 && rd.ch0 < 0x1_0000 && rd.ch1 < 0x1_0000
      modifies this
      ensures Valid()
      ensures status == old(status) && luxTable == old(luxTable) && proxData == old(proxData)
      ensures alsSaturation == old(alsSaturation) && alsGainTimeScale == old(alsGainTimeScale)
      ensures cntrl < 0 || CalibrateGate(cntrl) != 0 ==> als == old(als) && luxVal == 0
      ensures 0 <= cntrl && CalibrateGate(cntrl) == 0 ==>
              LuxRead(old(als), als, luxVal, status == Working, rd, alsSaturation, alsGainTimeScale,
                      luxTable, old(settings).alsGainTrim)
      ensures cntrl < 0 ==> ret == cntrl && settings == old(settings)
      ensures 0 <= cntrl && CalibrateGate(cntrl) != 0 ==> ret == CalibrateGate(cntrl) && settings == old(settings)
      ensures 0 <= cntrl && CalibrateGate(cntrl) == 0 && luxVal < 0 ==> ret == luxVal && settings == old(settings)
      ensures 0 <= cntrl && CalibrateGate(cntrl) == 0 && luxVal == 0 ==> ret == -ERANGE && settings == old(settings)
      ensures 0 <= cntrl && CalibrateGate(cntrl) == 0 && luxVal > 0 ==>
              var q := CalibratedTrim(old(settings), luxVal);
              if q < 250 || q > 4000 then ret == -ERANGE && settings == old(settings)
              else ret == q && settings == old(settings).(alsGainTrim := q)
    {
      luxVal := 0;
      if cntrl < 0 {
        return cntrl, luxVal;
      }
      var gate := CalibrateGate(cntrl);
      if gate != 0 {
        return gate, luxVal;
      }
      luxVal := GetLux(rd);
      if luxVal < 0 {
        return luxVal, luxVal;
      }
      if luxVal == 0 {
        return -ERANGE, luxVal;
      }
      ret := CalibratedTrim(settings, luxVal);
      if ret < 250 || ret > 4000 {
        return -ERANGE, luxVal;
      }
      settings := settings.(alsGainTrim := ret);
    }

    /** Writes the register shadow and powers the chip on with the ADC enabled. */
    method ChipOn(io: OnReplies) returns (ret: int)
      requires Valid()
      modifies this, config
      ensures Valid()
      ensures settings == old(settings) && luxTable == old(luxTable) && als == old(als) && proxData == old(proxData)
      ensures old(status) == Working ==>
              && ret == -EINVAL && status == Working
              && config[..] == Shadow(settings, old(config[CNTRL]), old(config[GAIN]))
              && alsSaturation == old(alsSaturation) && alsGainTimeScale == old(alsGainTimeScale)
      ensures old(status) != Working ==>
              && config[..] == Shadow(settings, old(config[CNTRL]), GainReg(settings))
              && alsSaturation == Saturation(settings) && alsGainTimeScale == Scale(settings)
              && ret == OnResult(io)
              && status == (if ret >= 0 then Working else old(status))
    {
      SetShadow(Shadow(settings, config[CNTRL], config[GAIN]));
      if status == Working {
        ret := -EINVAL;
      } else {
        ConfigureGain();
        ret := PowerUp(io);
      }
    }

    /** Sets the gain register and the lux scaling before the power-on transfers. */
    method ConfigureGain()
      requires Valid()
      modifies this, config
      ensures Valid()
      ensures settings == old(settings) && luxTable == old(luxTable) && als == old(als) && proxData == old(proxData)
      ensures status == old(status)
      ensures config[..] == Shadow(settings, old(config[CNTRL]), GainReg(settings))
      ensures alsSaturation == Saturation(settings) && alsGainTimeScale == Scale(settings)
    {
      ScaleZeroIff(settings);
      SetShadow(Shadow(settings, config[CNTRL], GainReg(settings)));
      alsSaturation := Saturation(settings);
      alsGainTimeScale := Scale(settings);
    }

    /** The power-on transfers; the chip is working once they all succeed. */
    method PowerUp(io: OnReplies) returns (ret: int)
      requires Valid()
      modifies `status
      ensures Valid()
      ensures ret == OnResult(io)
      ensures status == (if ret >= 0 then Working else old(status))
    {
      ret := PowerOn(io);
      if ret >= 0 {
        status := Working;
      }
    }

    /** Stores a shadow into the configuration array. */
    method SetShadow(sh: seq<U8>)
      requires config.Length == MAX_CONFIG_REG && |sh| == MAX_CONFIG_REG && sh[CNTRL] == config[CNTRL]
      modifies config
      ensures config[..] == sh
    {
      forall k | CNTRL < k < MAX_CONFIG_REG {
        config[k] := sh[k];
      }
    }

    /** Powers the chip off; `rc` is the control-register write result. */
    method ChipOff(rc: int) returns (ret: int)
      modifies this
      ensures status == Suspended && ret == rc
      ensures settings == old(settings) && luxTable == old(luxTable) && als == old(als) && proxData == old(proxData)
      ensures alsSaturation == old(alsSaturation) && alsGainTimeScale == old(alsGainTimeScale)
    {
      status := Suspended;
      ret := rc;
    }

    /** The effect of tsl2x7x_invoke_change with these replies. */
    twostate predicate Reconfigured(offRc: int, io: OnReplies, ret: int)
      reads this, config
    {
      && settings == old(settings) && luxTable == old(luxTable) && als == old(als) && proxData == old(proxData)
      && if old(status) == Working && offRc < 0 then
           && ret == offRc && status == Suspended && config[..] == old(config[..])
           && alsSaturation == old(alsSaturation) && alsGainTimeScale == old(alsGainTimeScale)
         else
           && config.Length == MAX_CONFIG_REG && 0 <= settings.alsGain < 4
           && config[..] == Shadow(settings, old(config[CNTRL]), GainReg(settings))
           && alsSaturation == Saturation(settings) && alsGainTimeScale == Scale(settings)
           && ret == OnResult(io)
           && status == (if ret >= 0 then Working else if old(status) == Working then Suspended else old(status))
    }

    /** Power-cycles the chip so that it runs with the current settings. */
    method InvokeChange(offRc: int, io: OnReplies) returns (ret: int)
      requires Valid()
      modifies this, config
      ensures Valid() && Reconfigured(offRc, io, ret)
      ensures ret >= 0 <==> status == Working
    {
      if status == Working {
        ret := ChipOff(offRc);
        if ret < 0 {
          return;
        }
      }
      ret := ChipOn(io);
      OnResultSign(io);
    }

    /** The sampling loop of prox_cal: `n` proximity reads, stopping at the first failure. */
    method CollectSamples(probes: nat -> int, n: nat) returns (ret: int, history: seq<int>)
      requires Valid()
      requires forall k: nat :: probes(k) < 0x1_0000
      modifies this
      ensures Valid()
      ensures status == old(status) && settings == old(settings) && luxTable == old(luxTable) && als == old(als)
      ensures alsSaturation == old(alsSaturation) && alsGainTimeScale == old(alsGainTimeScale)
      ensures var k := FirstBadRead(probes, 0, n);
              && (k < n ==> ret == probes(k))
              && (k == n ==> ret >= 0 && history == Samples(probes, n))
              && proxData == (if k == 0 then old(proxData) else probes(k - 1))
    {
      ret := 0;
      history := [];
      var i := 0;
      while i < n
        invariant 0 <= i <= n && ret >= 0
        invariant Valid() && settings == old(settings) && status == old(status) && luxTable == old(luxTable)
        invariant als == old(als) && alsSaturation == old(alsSaturation) && alsGainTimeScale == old(alsGainTimeScale)
        invariant FirstBadRead(probes, 0, n) == FirstBadRead(probes, i, n)
        invariant history == Samples(probes, i)
        invariant proxData == (if i == 0 then old(proxData) else probes(i - 1))
      {
        ret := GetProx(probes(i));
        if ret < 0 {
          return;
        }
        history := history + [proxData];
        i := i + 1;
      }
    }

    /** The calibration part of prox_cal: checks the sample count, samples, and sets the high threshold. */
    method ProxCalibrate(probes: nat -> int) returns (ret: int)
      requires Valid()
      requires forall k: nat :: probes(k) < 0x1_0000
      modifies this
      ensures Valid()
      ensures status == old(status) && luxTable == old(luxTable) && als == old(als)
      ensures alsSaturation == old(alsSaturation) && alsGainTimeScale == old(alsGainTimeScale)
      ensures var n := old(settings.proxMaxSamplesCal);
              if n < 1 || n > MAX_SAMPLES_CAL then
                ret == -EINVAL && settings == old(settings) && proxData == old(proxData)
              else if FirstBadRead(probes, 0, n) < n then
                var k := FirstBadRead(probes, 0, n);
                && ret == probes(k) && settings == old(settings)
                && proxData == (if k == 0 then old(proxData) else probes(k - 1))
              else
                && ret >= 0 && proxData == probes(n - 1)
                && settings == old(settings).(proxThresHigh := ProxThreshold(Samples(probes, n)))
    {
      var n := settings.proxMaxSamplesCal;
      if n < 1 || n > MAX_SAMPLES_CAL {
        return -EINVAL;
      }
      var history;
      ret, history := CollectSamples(probes, n);
      if ret < 0 {
        return;
      }
      assert FirstBadRead(probes, 0, n) == n && history == Samples(probes, n);
      var sum, mx := SumAndMax(history);
      assert 2 * mx - CDiv(sum, n) == ProxThreshold(history);
      settings := settings.(proxThresHigh := 2 * mx - CDiv(sum, n));
    }

    /** tsl2x7x_prox_cal: calibrate, then power-cycle with the new threshold. */
    method ProxCal(probes: nat -> int, offRc: int, io: OnReplies) returns (ret: int)
      requires Valid()
      requires forall k: nat :: probes(k) < 0x1_0000
      modifies this, config
      ensures Valid()
      ensures var n := old(settings.proxMaxSamplesCal);
              if n < 1 || n > MAX_SAMPLES_CAL || FirstBadRead(probes, 0, n) < n then
                ret < 0 && settings == old(settings) && status == old(status)
              else
                && settings == old(settings).(proxThresHigh := ProxThreshold(Samples(probes, n)))
                && (ret >= 0 <==> status == Working)
    {
      ret := ProxCalibrate(probes);
      if ret < 0 {
        return;
      }
      ret := InvokeChange(offRc, io);
    }

    /** Replaces the lux table with user equations, then reconfigures. */
    method LuxTableStore(ints: seq<int>, offRc: int, io: OnReplies) returns (ret: int)
      requires Valid()
      requires |ints| <= 2 * MAX_LUX_TABLE_SIZE
      modifies this, config
      ensures Valid()
      ensures !LuxTableAccepted(ints) ==> ret == -EINVAL && luxTable == old(luxTable) && status == old(status)
      ensures LuxTableAccepted(ints) && old(status) == Working && offRc < 0 ==>
              ret == offRc && luxTable == old(luxTable) && status == Suspended
      ensures LuxTableAccepted(ints) && (old(status) != Working || offRc >= 0) ==>
              && luxTable == StoredTable(ints)
              && (ret >= 0 <==> status == Working)
              && ret == OnResult(io)
              && config[..] == Shadow(settings, old(config[CNTRL]), GainReg(settings))
      ensures settings == old(settings)
    {
      if !LuxTableAccepted(ints) {
        return -EINVAL;
      }
      if status == Working {
        ret := ChipOff(offRc);
        if ret < 0 {
          return;
        }
      }
      StoredTableTerminated(ints);
      luxTable := StoredTable(ints);
      ret := InvokeChange(offRc, io);
    }

    /** Stores a CALIBSCALE, CALIBBIAS or INT_TIME value, then reconfigures. */
    method WriteRaw(chan: ChanType, mask: InfoMask, val: int, val2: int, offRc: int, io: OnReplies)
      returns (ret: int)
      requires Valid()
      modifies this, config
      ensures Valid()
      ensures RawWrite(chan, mask, val, val2, old(settings)).None? ==>
              ret == -EINVAL && settings == old(settings) && status == old(status)
      ensures RawWrite(chan, mask, val, val2, old(settings)).Some? ==>
              && settings == RawWrite(chan, mask, val, val2, old(settings)).value
              && (ret >= 0 <==> status == Working)
    {
      var w := RawWrite(chan, mask, val, val2, settings);
      if w.None? {
        return -EINVAL;
      }
      settings := w.value;
      ret := InvokeChange(offRc, io);
    }

    /** The read_raw attribute handler; PROCESSED and RAW take fresh readings first. */
    method ReadRaw(chan: ChanType, channel: int, mask: InfoMask, rd: LuxReads, proxRd: int)
      returns (ret: int, val: int, val2: int)
      requires Valid()
      requires rd.status < 0x100 && rd.ch0 < 0x1_0000 && rd.ch1 < 0x1_0000 && proxRd < 0x1_0000
      modifies this
      ensures Valid()
      ensures settings == old(settings) && status == old(status) && luxTable == old(luxTable)
      ensures mask == Processed ==>
              if chan == Light then ret == IIO_VAL_INT && val == als.lux else ret == -EINVAL
      ensures mask == Raw ==>
              match chan
              case Intensity => ret == IIO_VAL_INT && val == (if channel == 0 then als.ch0 else als.ch1)
              case Proximity => ret == IIO_VAL_INT && val == proxData
              case Light => ret == -EINVAL
      ensures mask != Processed && mask != Raw ==> (ret, val, val2) == ReadSetting(chan, mask, settings)
      ensures (mask == Processed && chan == Light) || (mask == Raw && chan == Intensity) ==>
              && proxData == old(proxData)
              && LuxUpdated(old(als), als, status == Working, rd, alsSaturation, alsGainTimeScale,
                            luxTable, settings.alsGainTrim)
      ensures mask == Raw && chan == Proximity ==>
              als == old(als) && proxData == (if proxRd < 0 then old(proxData) else proxRd)
      ensures !((mask == Processed && chan == Light) || (mask == Raw && chan != Light)) ==>
              als == old(als) && proxData == old(proxData)
    {
      val, val2 := 0, 0;
      match mask
      case Processed =>
        if chan == Light {
          var lux := GetLux(rd);
          val := als.lux;
          ret := IIO_VAL_INT;
        } else {
          ret := -EINVAL;
        }
      case Raw =>
        if chan == Intensity {
          var lux := GetLux(rd);
          val := if channel == 0 then als.ch0 else als.ch1;
          ret := IIO_VAL_INT;
        } else if chan == Proximity {
          var _ := GetProx(proxRd);
          val := proxData;
          ret := IIO_VAL_INT;
        } else {
          ret := -EINVAL;
        }
      case _ =>
        var r := ReadSetting(chan, mask, settings);
        ret, val, val2 := r.0, r.1, r.2;
    }
  }
}
