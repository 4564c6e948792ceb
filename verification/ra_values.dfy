/** The value mappings and the arithmetic of the UE's random-access
    procedure (TS 38.321 section 5.1): RRC enumerations turned into
    numbers, the preamble group and index choice, the RACH occasion
    choice and the response window. An RRC ENUMERATED field is given by
    its index in the ASN.1 definition of TS 38.331, a CHOICE by its
    `present` tag (1 for the first alternative). */
module RaValues {
  import opened Common
  import opened Arithmetic

  // ---------------------------------------------------------------
  // RRC value mappings
  // ---------------------------------------------------------------

  /** `set_preambleTransMax`: preambleTransMax ENUMERATED {n3, n4, n5,
      n6, n7, n8, n10, n20, n50, n100, n200}; anything else stops the
      UE. */
  function PreambleTransMax(code: int): (r: Outcome<nat>)
    ensures r.Ok? <==> 0 <= code <= 10
    ensures r.Ok? ==> 3 <= r.value <= 200
  {
    match code
    case 0 => Ok(3)
    case 1 => Ok(4)
    case 2 => Ok(5)
    case 3 => Ok(6)
    case 4 => Ok(7)
    case 5 => Ok(8)
    case 6 => Ok(10)
    case 7 => Ok(20)
    case 8 => Ok(50)
    case 9 => Ok(100)
    case 10 => Ok(200)
    case _ => Fatal
  }

  /** A later enumerator allows strictly more transmissions, so the
      mapping is one-to-one. */
  lemma PreambleTransMaxIncreasing(a: int, b: int)
    requires 0 <= a < b <= 10
    ensures PreambleTransMax(a).value < PreambleTransMax(b).value
  {
  }

  /** ra-Msg3SizeGroupA ENUMERATED {b56, b144, b208, b256, b282, b480,
      b640, b800, b1000, b72}, in bits; the spare values stop the UE. */
  function Msg3SizeGroupABits(code: int): (r: Outcome<nat>)
    ensures r.Ok? <==> 0 <= code <= 9
    ensures r.Ok? ==> 56 <= r.value <= 1000
  {
    match code
    case 0 => Ok(56)
    case 1 => Ok(144)
    case 2 => Ok(208)
    case 3 => Ok(256)
    case 4 => Ok(282)
    case 5 => Ok(480)
    case 6 => Ok(640)
    case 7 => Ok(800)
    case 8 => Ok(1000)
    case 9 => Ok(72)
    case _ => Fatal
  }

  /** `get_Msg3SizeGroupA`: the group-A size in whole bytes, rounded
      down. */
  function Msg3SizeGroupA(code: int): (r: Outcome<nat>)
    ensures r.Ok? <==> Msg3SizeGroupABits(code).Ok?
    ensures r.Ok? ==> 8 * r.value <= Msg3SizeGroupABits(code).value < 8 * r.value + 8
  {
    match Msg3SizeGroupABits(code)
    case Ok(bits) => Ok(bits / 8)
    case Fatal => Fatal
  }

  /** Comparing a Msg3 size in bytes with the rounded-down byte count is
      the same as comparing its bits with the configured bit count, even
      for b282, which is not a whole number of bytes. */
  lemma Msg3ExceedsGroupA(code: int, msg3Bytes: int)
    requires Msg3SizeGroupA(code).Ok?
    ensures msg3Bytes > Msg3SizeGroupA(code).value <==> 8 * msg3Bytes > Msg3SizeGroupABits(code).value
  {
    var bytes := Msg3SizeGroupA(code).value;
    var bits := Msg3SizeGroupABits(code).value;
    if msg3Bytes > bytes {
      assert 8 * msg3Bytes >= 8 * bytes + 8;
    }
  }

  /** `get_messagePowerOffsetGroupB`: messagePowerOffsetGroupB
      ENUMERATED {minusinfinity, dB0, dB5, dB8, dB10, dB12, dB15, dB18};
      minus infinity is represented by `INT_MIN`. */
  function MessagePowerOffsetGroupB(code: int): (r: Outcome<int>)
    ensures r.Ok? <==> 0 <= code <= 7
    ensures r == Ok(IntMin) <==> code == 0
    ensures r.Ok? && code != 0 ==> 0 <= r.value <= 18
  {
    match code
    case 0 => Ok(IntMin)
    case 1 => Ok(0)
    case 2 => Ok(5)
    case 3 => Ok(8)
    case 4 => Ok(10)
    case 5 => Ok(12)
    case 6 => Ok(15)
    case 7 => Ok(18)
    case _ => Fatal
  }

  /** `nr_get_delta_preamble`: DELTA_PREAMBLE in dB (TS 38.321 section
      7.3). Long formats 0..3 do not depend on the subcarrier spacing;
      the short formats (A1..C2, tag 0xa1 and up) gain 3 dB per
      numerology step. */
  function DeltaPreamble(scs: int, format: int): (r: Outcome<int>)
    ensures r.Ok? <==> format in {0, 1, 2, 3, 0xa1, 0xb1, 0xa2, 0xb2, 0xc2, 0xa3, 0xb3, 0xb4, 0xc0}
    ensures r.Ok? && format <= 3 ==> -6 <= r.value <= 0
  {
    match format
    case 0 => Ok(0)
    case 3 => Ok(0)
    case 1 => Ok(-3)
    case 2 => Ok(-6)
    case 0xa1 => Ok(8 + 3 * scs)
    case 0xb1 => Ok(8 + 3 * scs)
    case 0xa2 => Ok(5 + 3 * scs)
    case 0xb2 => Ok(5 + 3 * scs)
    case 0xc2 => Ok(5 + 3 * scs)
    case 0xa3 => Ok(3 + 3 * scs)
    case 0xb3 => Ok(3 + 3 * scs)
    case 0xb4 => Ok(3 * scs)
    case 0xc0 => Ok(11 + 3 * scs)
    case _ => Fatal
  }

  /** One numerology step changes a short format's offset by exactly
      3 dB and leaves a long format's unchanged. */
  lemma DeltaPreambleScsStep(scs: int, format: int)
    requires DeltaPreamble(scs, format).Ok?
    ensures DeltaPreamble(scs + 1, format).Ok?
    ensures DeltaPreamble(scs + 1, format).value
         == DeltaPreamble(scs, format).value + (if format <= 3 then 0 else 3)
  {
  }

  // ---------------------------------------------------------------
  // Preamble power (TS 38.321 sections 5.1.3 and 5.1.3a)
  // ---------------------------------------------------------------

  /** `get_ra_preamble_rx_target_power`:
      PREAMBLE_RECEIVED_TARGET_POWER. */
  function PreambleTargetPower(configured: int, deltaPreamble: int, powerOffset2Step: int,
                               rampingCounter: int, rampingStep: int): int
  {
    configured + deltaPreamble + powerOffset2Step + (rampingCounter - 1) * rampingStep
  }

  /** Each ramping step raises the target by exactly the step, and the
      first attempt uses the configured power plus the offsets. */
  lemma PreambleTargetPowerRamps(configured: int, delta: int, offset: int, counter: int, step: int)
    ensures PreambleTargetPower(configured, delta, offset, counter + 1, step)
         == PreambleTargetPower(configured, delta, offset, counter, step) + step
    ensures PreambleTargetPower(configured, delta, offset, 1, step) == configured + delta + offset
  {
  }

  /** `get_prach_tx_power`: the transmit power is the target plus the
      pathloss, narrowed to `int16_t`, capped at PCMAX. */
  function PrachTxPower(pcMax: int, targetPower: int, pathloss: int): (r: int)
    ensures r <= pcMax && r <= Wrap16(targetPower + pathloss)
    ensures r == pcMax || r == Wrap16(targetPower + pathloss)
    ensures -32768 <= targetPower + pathloss < 32768 ==> r == Min(pcMax, targetPower + pathloss)
  {
    Min(pcMax, Wrap16(targetPower + pathloss))
  }

  // ---------------------------------------------------------------
  // Preamble group (select_preamble_group)
  // ---------------------------------------------------------------

  /** The powers the group-B test reads, in dB. */
  datatype GroupBPower = GroupBPower(pcMax: int, targetPower: int, msg3DeltaPreamble: int, pathloss: int)

  /** The group-B test as written: the threshold PCMAX - target -
      msg3-DeltaPreamble - offset is a 32-bit `int`, so an offset of
      minus infinity (`INT_MIN`) overflows. */
  predicate UseGroupBAsWritten(msg3Bytes: int, groupABytes: int, p: GroupBPower, offset: int) {
    msg3Bytes > groupABytes
    && p.pathloss < Wrap32(p.pcMax - p.targetPower - p.msg3DeltaPreamble - offset)
  }

  /** The group-B test of TS 38.321 section 5.1.2: the Msg3 is larger
      than group A allows and the pathloss is below the threshold,
      which is unbounded when the offset is minus infinity. */
  predicate UseGroupB(msg3Bytes: int, groupABytes: int, p: GroupBPower, offset: int) {
    msg3Bytes > groupABytes
    && (offset == IntMin || p.pathloss < p.pcMax - p.targetPower - p.msg3DeltaPreamble - offset)
  }

  /** With a finite offset and powers whose threshold fits in an `int`,
      the two tests agree. */
  lemma UseGroupBAgreesWhenFinite(msg3Bytes: int, groupABytes: int, p: GroupBPower, offset: int)
    requires offset != IntMin
    requires IntMin <= p.pcMax - p.targetPower - p.msg3DeltaPreamble - offset < -IntMin
    ensures UseGroupBAsWritten(msg3Bytes, groupABytes, p, offset) == UseGroupB(msg3Bytes, groupABytes, p, offset)
  {
  }

  /** With minus infinity, PCMAX 23 dBm, a -110 dBm target and no
      msg3-DeltaPreamble, the wrapped threshold is hugely negative: the
      code never picks group B, although the standard's threshold is
      unbounded. */
  lemma AsWrittenMinusInfinityBlocksGroupB()
    ensures !UseGroupBAsWritten(100, 7, GroupBPower(23, -110, 0, 80), IntMin)
    ensures UseGroupB(100, 7, GroupBPower(23, -110, 0, 80), IntMin)
  {
    assert Wrap32(23 + 110 - IntMin) == 133 + IntMin;
  }

  /** Group B as configured in groupBconfigured. */
  datatype GroupBConfig = GroupBConfig(msg3SizeCode: int, powerOffsetCode: int, preamblesGroupA: nat)

  /** `select_preamble_group`: the new RA_GroupA flag. A buffered Msg3
      (a retransmission) keeps the previous group; without group B the
      UE uses group A; otherwise group B is used exactly when the Msg3
      has more bits than ra-Msg3SizeGroupA and the pathloss passes the
      threshold. An undefined enumerator stops the UE. */
  function SelectPreambleGroup(msg3Buffered: bool, groupA: bool, groupB: Option<GroupBConfig>,
                               p: GroupBPower, msg3Bytes: int): (r: Outcome<bool>)
    ensures msg3Buffered ==> r == Ok(groupA)
    ensures !msg3Buffered && groupB.None? ==> r == Ok(true)
    ensures !msg3Buffered && groupB.Some? ==>
      (r.Ok? <==> 0 <= groupB.value.msg3SizeCode <= 9 && 0 <= groupB.value.powerOffsetCode <= 7)
    ensures !msg3Buffered && groupB.Some? && r.Ok? ==>
      (!r.value <==>
         8 * msg3Bytes > Msg3SizeGroupABits(groupB.value.msg3SizeCode).value
         && (groupB.value.powerOffsetCode == 0
             || p.pathloss < p.pcMax - p.targetPower - p.msg3DeltaPreamble
                             - MessagePowerOffsetGroupB(groupB.value.powerOffsetCode).value))
  {
    if msg3Buffered then Ok(groupA)
    else if groupB.None? then Ok(true)
    else
      match (MessagePowerOffsetGroupB(groupB.value.powerOffsetCode), Msg3SizeGroupA(groupB.value.msg3SizeCode))
      case (Ok(offset), Ok(groupABytes)) =>
        Msg3ExceedsGroupA(groupB.value.msg3SizeCode, msg3Bytes);
        Ok(!UseGroupB(msg3Bytes, groupABytes, p, offset))
      case _ => Fatal
  }

  // ---------------------------------------------------------------
  // SSBs per RACH occasion and preambles per SSB
  // ---------------------------------------------------------------

  /** `ssb_ro_preambles_t`: SSBs per RACH occasion as the fraction
      `perRoNum / perRoDen`, and contention-based preambles per SSB. */
  datatype SsbRoConfig = SsbRoConfig(perRoNum: nat, perRoDen: nat, preamblesPerSsb: nat)

  /** The shapes the RRC field allows: a unit fraction or a whole
      number. */
  predicate ValidSsbRo(c: SsbRoConfig) {
    c.perRoNum >= 1 && c.perRoDen >= 1 && (c.perRoNum == 1 || c.perRoDen == 1)
  }

  /** `ssb_per_ro < 1`: one SSB is spread over several occasions. */
  predicate SharedSsb(c: SsbRoConfig) {
    c.perRoNum < c.perRoDen
  }

  /** `get_ssb_ro_preambles_4step` and `get_ssb_ro_preambles_2step`,
      which are the same mapping: the CHOICE oneEighth, oneFourth,
      oneHalf, one, two, four, eight, sixteen (tags 1..8) gives
      2^(tag-4) SSBs per occasion; for the first five the value is an
      index n4, n8, ... (4 (value + 1) preambles), for the last three
      it is the count itself. */
  function SsbRoPreambles(present: int, choice: nat): (r: Outcome<SsbRoConfig>)
    ensures r.Ok? <==> 1 <= present <= 8
    ensures r.Ok? ==> ValidSsbRo(r.value)
    ensures r.Ok? ==> r.value.perRoNum * 8 == Pow2(present - 1) * r.value.perRoDen
    ensures r.Ok? ==> (SharedSsb(r.value) <==> present <= 3)
    ensures r.Ok? ==> r.value.preamblesPerSsb == (if present <= 5 then 4 * (choice + 1) else choice)
  {
    match present
    case 1 => Ok(SsbRoConfig(1, 8, (choice + 1) * 4))
    case 2 => Ok(SsbRoConfig(1, 4, (choice + 1) * 4))
    case 3 => Ok(SsbRoConfig(1, 2, (choice + 1) * 4))
    case 4 => Ok(SsbRoConfig(1, 1, (choice + 1) * 4))
    case 5 => Ok(SsbRoConfig(2, 1, (choice + 1) * 4))
    case 6 => Ok(SsbRoConfig(4, 1, choice))
    case 7 => Ok(SsbRoConfig(8, 1, choice))
    case 8 => Ok(SsbRoConfig(16, 1, choice))
    case _ => Fatal
  }

  // ---------------------------------------------------------------
  // Preamble index (config_preamble_index)
  // ---------------------------------------------------------------

  /** First preamble of the SSB's block: when several SSBs share an
      occasion, each owns `preamblesPerSsb` consecutive preambles. */
  function SsbPreambleBase(c: SsbRoConfig, ssbOrdinal: nat): (r: nat)
    requires ValidSsbRo(c)
    ensures SharedSsb(c) ==> r == 0
    ensures !SharedSsb(c) ==> r == (ssbOrdinal % c.perRoNum) * c.preamblesPerSsb
  {
    if SharedSsb(c) then 0 else (ssbOrdinal % c.perRoNum) * c.preamblesPerSsb
  }

  /** Size of the range the code draws from, as written: for group B it
      takes every preamble above group A up to the total. */
  function DrawRangeAsWritten(c: SsbRoConfig, total: nat, groupB: Option<nat>, groupA: bool): int
    requires groupB.Some? ==> groupB.value < total
  {
    Min(c.preamblesPerSsb,
        if groupB.None? then total else if groupA then groupB.value else total - groupB.value)
  }

  /** `config_preamble_index` as written, with rand_r's draw `rand` as
      a parameter. `groupB` is numberOfRA-PreamblesGroupA when group B
      is configured, `total` the preamble count (64 unless
      totalNumberOfRA-Preambles is given), `ssbOrdinal` the SSB's
      position among the transmitted ones. Group A must be smaller than
      the total, and an empty range would be a division by zero. */
  function PreambleIndexAsWritten(c: SsbRoConfig, total: nat, groupB: Option<nat>, groupA: bool,
                                  rand: nat, ssbOrdinal: nat): (r: Outcome<int>)
    requires ValidSsbRo(c)
    ensures r.Ok? <==> (groupB.Some? ==> groupB.value < total) && DrawRangeAsWritten(c, total, groupB, groupA) > 0
    ensures r.Ok? ==>
      var offset := if groupB.Some? && !groupA then groupB.value else 0;
      var base := SsbPreambleBase(c, ssbOrdinal) + offset;
      base <= r.value < base + DrawRangeAsWritten(c, total, groupB, groupA)
  {
    if groupB.Some? && groupB.value >= total then Fatal
    else
      var range := DrawRangeAsWritten(c, total, groupB, groupA);
      if range <= 0 then Fatal
      else
        var offset := if groupB.Some? && !groupA then groupB.value else 0;
        Ok(SsbPreambleBase(c, ssbOrdinal) + offset + rand % range)
  }

  /** The group's share of the SSB's contention-based preambles (TS
      38.321 section 5.1.1): group A is the first
      numberOfRA-PreamblesGroupA of them, group B the rest of the SSB's
      `preamblesPerSsb` (within the total). */
  function DrawRange(c: SsbRoConfig, total: nat, groupB: Option<nat>, groupA: bool): int
  {
    if groupB.None? then Min(c.preamblesPerSsb, total)
    else if groupA then Min(c.preamblesPerSsb, groupB.value)
    else Min(c.preamblesPerSsb, total) - groupB.value
  }

  /** `config_preamble_index` with group B drawn from the SSB's own
      preambles. The result is one of the SSB's contention-based
      preambles, inside group A or group B as selected. */
  function PreambleIndex(c: SsbRoConfig, total: nat, groupB: Option<nat>, groupA: bool,
                         rand: nat, ssbOrdinal: nat): (r: Outcome<int>)
    requires ValidSsbRo(c)
    ensures r.Ok? <==> (groupB.Some? ==> groupB.value < total) && DrawRange(c, total, groupB, groupA) > 0
    ensures r.Ok? ==>
      var base := SsbPreambleBase(c, ssbOrdinal);
      base <= r.value < base + c.preamblesPerSsb && r.value < base + total
    ensures r.Ok? && groupB.Some? ==>
      var k := r.value - SsbPreambleBase(c, ssbOrdinal);
      (groupA <==> k < groupB.value)
  {
    if groupB.Some? && groupB.value >= total then Fatal
    else
      var range := DrawRange(c, total, groupB, groupA);
      if range <= 0 then Fatal
      else
        var offset := if groupB.Some? && !groupA then groupB.value else 0;
        Ok(SsbPreambleBase(c, ssbOrdinal) + offset + rand % range)
  }

  /** With 32 preambles per SSB out of 64 and 16 in group A, the code
      may hand a group-B UE preamble 36, which is not one of the SSB's
      contention-based preambles. */
  lemma AsWrittenGroupBLeavesSsbPreambles()
    ensures PreambleIndexAsWritten(SsbRoConfig(1, 8, 32), 64, Some(16), false, 20, 0) == Ok(36)
    ensures PreambleIndex(SsbRoConfig(1, 8, 32), 64, Some(16), false, 20, 0) == Ok(20)
  {
  }

  /** For group A, and without group B, the two draws agree. */
  lemma PreambleIndexAgreesOutsideGroupB(c: SsbRoConfig, total: nat, groupB: Option<nat>, groupA: bool,
                                         rand: nat, ssbOrdinal: nat)
    requires ValidSsbRo(c)
    requires groupB.None? || groupA
    ensures PreambleIndexAsWritten(c, total, groupB, groupA, rand, ssbOrdinal)
         == PreambleIndex(c, total, groupB, groupA, rand, ssbOrdinal)
  {
  }

  // ---------------------------------------------------------------
  // RACH occasion (select_prach_occasion, configure_prach_occasions)
  // ---------------------------------------------------------------

  /** Number of occasions one SSB can use, from which rand_r picks. */
  function OccasionsPerSsb(c: SsbRoConfig, nbTxSsb: nat, associationPeriods: nat, occasionsInPeriod: nat): nat
    requires ValidSsbRo(c) && nbTxSsb > 0
  {
    if SharedSsb(c) then c.perRoDen
    else associationPeriods * Min(nbTxSsb, c.perRoNum) * occasionsInPeriod / nbTxSsb
  }

  /** Serial number of the chosen occasion across the association
      pattern, for the draw `drawn`. A shared SSB owns `perRoDen`
      consecutive occasions; otherwise occasion t carries the SSBs
      t*perRoNum .. t*perRoNum + perRoNum - 1, counting SSBs cyclically
      over the transmitted ones. */
  function OccasionSerial(c: SsbRoConfig, nbTxSsb: nat, raSsb: nat, drawn: nat): (t: nat)
    requires ValidSsbRo(c)
    requires SharedSsb(c) ==> drawn < c.perRoDen
    ensures SharedSsb(c) ==> t / c.perRoDen == raSsb
    ensures !SharedSsb(c) ==> t * c.perRoNum <= raSsb + drawn * nbTxSsb < t * c.perRoNum + c.perRoNum
  {
    if SharedSsb(c) then
      BlockStart(raSsb, c.perRoDen, drawn)
    else
      QuotientBrackets(raSsb + drawn * nbTxSsb, c.perRoNum)
  }

  /** Position `r` of block `b` of width `m`. */
  function BlockStart(b: nat, m: nat, r: nat): (t: nat)
    requires r < m
    ensures t / m == b
  {
    DivModUnique(b * m + r, m, b, r);
    b * m + r
  }

  /** The block of width `m` holding `e`. */
  function QuotientBrackets(e: nat, m: nat): (q: nat)
    requires m > 0
    ensures q * m <= e < q * m + m
  {
    e / m
  }

  /** The chosen occasion: its index within the configuration period
      and the association period it falls in. */
  datatype OccasionChoice = OccasionChoice(occasion: nat, associationPeriod: nat)

  /** `select_prach_occasion` with the draw `rand`: pick one of the
      SSB's occasions and split its serial number into period and
      occasion. A zero count is a division by zero. */
  function SelectPrachOccasion(c: SsbRoConfig, nbTxSsb: nat, raSsb: nat, associationPeriods: nat,
                               occasionsInPeriod: nat, rand: nat): (r: Outcome<OccasionChoice>)
    requires ValidSsbRo(c)
    ensures r.Ok? <==> (nbTxSsb > 0 && occasionsInPeriod > 0
                        && OccasionsPerSsb(c, nbTxSsb, associationPeriods, occasionsInPeriod) > 0)
    ensures r.Ok? ==> r.value.occasion < occasionsInPeriod
    ensures r.Ok? ==>
      r.value.associationPeriod * occasionsInPeriod + r.value.occasion
        == OccasionSerial(c, nbTxSsb, raSsb, rand % OccasionsPerSsb(c, nbTxSsb, associationPeriods, occasionsInPeriod))
  {
    if nbTxSsb == 0 || occasionsInPeriod == 0 then Fatal
    else
      var n := OccasionsPerSsb(c, nbTxSsb, associationPeriods, occasionsInPeriod);
      if n == 0 then Fatal
      else
        Ok(SplitSerial(OccasionSerial(c, nbTxSsb, raSsb, rand % n), occasionsInPeriod))
  }

  /** `ro_index` and `ass_period_idx` of a serial number. */
  function SplitSerial(t: nat, occasionsInPeriod: nat): (r: OccasionChoice)
    requires occasionsInPeriod > 0
    ensures r.occasion < occasionsInPeriod
    ensures r.associationPeriod * occasionsInPeriod + r.occasion == t
  {
    DivModUnique(t, occasionsInPeriod, t / occasionsInPeriod, t % occasionsInPeriod);
    OccasionChoice(t % occasionsInPeriod, t / occasionsInPeriod)
  }

  /** Powers of two, the only association periods. */
  predicate PowerOfTwo(n: nat)
    decreases n
  {
    n == 1 || (n >= 2 && n % 2 == 0 && PowerOfTwo(n / 2))
  }

  /** The longest association period reachable from `period` by
      doubling whose length in frames stays within 16 (TS 38.213 Table
      8.1-1). */
  function LongestPeriod(period: nat, configPeriod: nat): (r: nat)
    requires period >= 1 && configPeriod >= 1
    ensures r >= period
    decreases if period * configPeriod <= 16 then 17 - period * configPeriod else 0
  {
    if 2 * period * configPeriod > 16 then period else LongestPeriod(2 * period, configPeriod)
  }

  /** Doubling keeps a power of two. */
  lemma DoublePowerOfTwo(n: nat)
    requires PowerOfTwo(n)
    ensures PowerOfTwo(2 * n)
  {
    assert (2 * n) / 2 == n;
  }

  /** The doubling loop of `configure_prach_occasions` from `period`,
      where the period holds `period * occasions` equivalent
      occasions. */
  function AssociationPeriodFrom(period: nat, eqSsbs: int, occasions: nat, configPeriod: nat): (r: Outcome<nat>)
    requires period >= 1 && configPeriod >= 1 && PowerOfTwo(period)
    ensures r.Ok? ==> PowerOfTwo(r.value) && period <= r.value <= LongestPeriod(period, configPeriod)
    ensures r.Ok? ==> eqSsbs <= r.value * occasions
    ensures r.Ok? && r.value > period ==> r.value / 2 * occasions < eqSsbs
    ensures r.Fatal? <==> eqSsbs > LongestPeriod(period, configPeriod) * occasions
    decreases if period * configPeriod <= 16 then 17 - period * configPeriod else 0
  {
    if eqSsbs <= period * occasions then
      MulMonotone(period, LongestPeriod(period, configPeriod), occasions);
      Ok(period)
    else if 2 * period * configPeriod > 16 then Fatal
    else
      DoublePowerOfTwo(period);
      assert (2 * period) / 2 == period;
      AssociationPeriodFrom(2 * period, eqSsbs, occasions, configPeriod)
  }

  /** `configure_prach_occasions`' association period: double it, one
      configuration period at a time, until the (equivalent) occasions
      cover the (equivalent) SSBs; the pattern may not exceed 16
      frames. */
  function AssociationPeriod(eqSsbs: int, eqOccasions: nat, configPeriod: nat): (r: Outcome<nat>)
    requires configPeriod >= 1
    ensures r.Ok? ==> PowerOfTwo(r.value) && r.value * eqOccasions >= eqSsbs
    ensures r.Ok? ==> r.value == 1 || r.value / 2 * eqOccasions < eqSsbs
    ensures r.Ok? && r.value > 1 ==> r.value * configPeriod <= 16
    ensures r.Fatal? <==> eqSsbs > LongestPeriod(1, configPeriod) * eqOccasions
  {
    LongestPeriodBound(1, configPeriod);
    assert PowerOfTwo(1);
    AssociationPeriodFrom(1, eqSsbs, eqOccasions, configPeriod)
  }

  /** Doubling past 1 only happens while the pattern fits in 16 frames. */
  lemma {:induction false} LongestPeriodBound(period: nat, configPeriod: nat)
    requires period >= 1 && configPeriod >= 1
    ensures LongestPeriod(period, configPeriod) == period
         || LongestPeriod(period, configPeriod) * configPeriod <= 16
    decreases if period * configPeriod <= 16 then 17 - period * configPeriod else 0
  {
    if 2 * period * configPeriod <= 16 {
      LongestPeriodBound(2 * period, configPeriod);
    }
  }
}
