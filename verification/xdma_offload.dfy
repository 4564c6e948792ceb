/** The parameter arithmetic of the Xilinx XDMA LDPC offload: how the
    decoder splits the lifting size Zc into a set index and a power of
    two, the control word written to the accelerator, the DMA transfer
    sizes, and the per-code-block buffer offsets. */
module XdmaOffload {
  import opened Common
  import opened Arithmetic

  // ---------------------------------------------------------------
  // Lifting size
  // ---------------------------------------------------------------

  /** The set index i_LS the decoder picks for Zc: the first of 15, 13,
    * 11, 9, 7, 5, 3 that divides it, else set 0. */
  function LiftingSetIndex(zc: int): (iLS: nat)
    ensures iLS < 8
    ensures iLS > 0 ==> zc % LiftingBase(iLS) == 0
  {
    if zc % 15 == 0 then 7
    else if zc % 13 == 0 then 6
    else if zc % 11 == 0 then 5
    else if zc % 9 == 0 then 4
    else if zc % 7 == 0 then 3
    else if zc % 5 == 0 then 2
    else if zc % 3 == 0 then 1
    else 0
  }

  /** The odd factor a of set i_LS, as the decoder computes it. */
  function LiftingBase(iLS: nat): nat
  {
    if iLS == 0 then 2 else 2 * iLS + 1
  }

  /** The factor a the DMA functions decode from the z_set field. */
  function ZSetBase(zSet: int): nat
  {
    if zSet == 0 then 2
    else if zSet == 1 then 3
    else if zSet == 2 then 5
    else if zSet == 3 then 7
    else if zSet == 4 then 9
    else if zSet == 5 then 11
    else if zSet == 6 then 13
    else 15
  }

  /** The DMA functions' table and the decoder's formula give the same
    * factor for every set index, and it is one of the eight factors of
    * TS 38.212 Table 5.3.2-1. */
  lemma ZSetBaseAgrees(iLS: nat)
    requires iLS < 8
    ensures ZSetBase(iLS) == LiftingBase(iLS)
    ensures LiftingBase(iLS) in {2, 3, 5, 7, 9, 11, 13, 15}
  {
  }

  /** The number of times 2 divides t (the decoder's z_j loop). */
  function TwoExponent(t: nat): nat
    decreases t
  {
    if t > 0 && t % 2 == 0 then 1 + TwoExponent(t / 2) else 0
  }

  /** The decoder's split of Zc into i_LS, z_a and z_j. The loop does
    * not end for Zc below 2, where Zc / z_a is 0. */
  method DecoderLifting(zc: int) returns (iLS: nat, za: nat, zj: nat)
    requires zc >= 2
    ensures iLS == LiftingSetIndex(zc) && za == LiftingBase(iLS) && zj == TwoExponent(zc / za)
    ensures zc / za >= 1 && (zc / za) % Pow2(zj) == 0 && ((zc / za) / Pow2(zj)) % 2 == 1
  {
    iLS := LiftingSetIndex(zc);
    if iLS == 0 {
      za := 2;
    } else {
      za := iLS * 2 + 1;
    }
    assert zc / za >= 1;
    var zTmp: nat := zc / za;
    zj := 0;
    while zTmp % 2 == 0
      invariant zTmp >= 1 && zTmp * Pow2(zj) == zc / za
      invariant TwoExponent(zc / za) == zj + TwoExponent(zTmp)
      decreases zTmp
    {
      HalveStep(zTmp, zj);
      zj := zj + 1;
      zTmp := zTmp / 2;
    }
    DivModUnique(zc / za, Pow2(zj), zTmp, 0);
  }

  /** Halving an even value moves one factor of two into the power. */
  lemma HalveStep(t: nat, k: nat)
    requires t >= 1 && t % 2 == 0
    ensures t / 2 >= 1 && (t / 2) * Pow2(k + 1) == t * Pow2(k)
    ensures TwoExponent(t) == 1 + TwoExponent(t / 2)
  {
    var h := t / 2;
    assert t == 2 * h;
    assert Pow2(k + 1) == 2 * Pow2(k);
    assert h * (2 * Pow2(k)) == (2 * h) * Pow2(k);
  }

  /** A lifting size of TS 38.212 Table 5.3.2-1: a * 2^j <= 384 for one
    * of the eight factors a. */
  predicate LiftingSize(a: nat, j: nat)
  {
    a in {2, 3, 5, 7, 9, 11, 13, 15} && a * Pow2(j) <= 384
  }

  /** An odd d divides a * 2^j exactly when it divides a. */
  lemma {:induction false} OddFactorTest(a: nat, d: nat, j: nat)
    requires d >= 3 && d % 2 == 1
    ensures (a * Pow2(j)) % d == 0 <==> a % d == 0
    decreases j
  {
    if a % d == 0 {
      DivModUnique(a * Pow2(j), d, (a / d) * Pow2(j), 0);
    } else if j > 0 {
      OddFactorTest(a, d, j - 1);
      var x := a * Pow2(j - 1);
      assert a * Pow2(j) == 2 * x;
      OddNotDividingDouble(x, d);
    }
  }

  /** An odd d dividing 2x divides x. */
  lemma OddNotDividingDouble(x: nat, d: nat)
    requires d >= 3 && d % 2 == 1 && x % d != 0
    ensures (2 * x) % d != 0
  {
    if (2 * x) % d == 0 {
      var q := (2 * x) / d;
      assert 2 * x == d * q;
      var f, b := q / 2, q % 2;
      assert q == 2 * f + b;
      var df := d * f;
      assert d * q == 2 * df + d * b by {
        assert d * q == d * (2 * f + b);
      }
      if b == 1 {
        DivModUnique(d, 2, x - df, 0);
      } else {
        DivModUnique(x, d, f, 0);
      }
    }
  }

  /** 2^j has exactly j factors of two. */
  lemma {:induction false} TwoExponentOfPow(j: nat)
    ensures TwoExponent(Pow2(j)) == j
  {
    if j > 0 {
      TwoExponentOfPow(j - 1);
      DivModUnique(Pow2(j), 2, Pow2(j - 1), 0);
    }
  }

  /** For every lifting size of TS 38.212 Table 5.3.2-1, the decoder
    * recovers the factor a and the exponent j, so the shifting size the
    * DMA functions rebuild as z_a << z_j is Zc again. */
  lemma LiftingRecovered(a: nat, j: nat)
    requires LiftingSize(a, j)
    ensures var zc := a * Pow2(j);
      var iLS := LiftingSetIndex(zc);
      LiftingBase(iLS) == a && TwoExponent(zc / a) == j
      && ZSetBase(iLS) * Pow2(TwoExponent(zc / LiftingBase(iLS))) == zc
  {
    var zc := a * Pow2(j);
    SetIndexOfSize(a, j, zc);
    ExponentOfSize(a, j, zc);
    Rebuilt(a, j, zc, LiftingSetIndex(zc));
  }

  lemma ExponentOfSize(a: nat, j: nat, zc: nat)
    requires a >= 1 && zc == a * Pow2(j)
    ensures zc / a == Pow2(j) && TwoExponent(zc / a) == j
  {
    DivModUnique(zc, a, Pow2(j), 0);
    TwoExponentOfPow(j);
  }

  lemma Rebuilt(a: nat, j: nat, zc: nat, iLS: nat)
    requires iLS < 8 && LiftingBase(iLS) == a && zc == a * Pow2(j) && TwoExponent(zc / a) == j
    ensures ZSetBase(iLS) * Pow2(TwoExponent(zc / LiftingBase(iLS))) == zc
  {
    ZSetBaseAgrees(iLS);
  }

  lemma SetIndexOfSize(a: nat, j: nat, zc: int)
    requires a in {2, 3, 5, 7, 9, 11, 13, 15} && zc == a * Pow2(j)
    ensures LiftingBase(LiftingSetIndex(zc)) == a
  {
    OddFactorTest(a, 15, j);
    OddFactorTest(a, 13, j);
    OddFactorTest(a, 11, j);
    OddFactorTest(a, 9, j);
    OddFactorTest(a, 7, j);
    OddFactorTest(a, 5, j);
    OddFactorTest(a, 3, j);
    SetIndexOfFactor(a, zc);
  }

  lemma SetIndexOfFactor(a: nat, zc: int)
    requires a in {2, 3, 5, 7, 9, 11, 13, 15}
    requires (zc % 15 == 0 <==> a % 15 == 0) && (zc % 13 == 0 <==> a % 13 == 0)
    requires (zc % 11 == 0 <==> a % 11 == 0) && (zc % 9 == 0 <==> a % 9 == 0)
    requires (zc % 7 == 0 <==> a % 7 == 0) && (zc % 5 == 0 <==> a % 5 == 0)
    requires (zc % 3 == 0 <==> a % 3 == 0)
    ensures LiftingBase(LiftingSetIndex(zc)) == a
  {
  }

  // ---------------------------------------------------------------
  // Base graph columns
  // ---------------------------------------------------------------

  /** kb, the information columns, for the bg field: 22 for base graph
    * 1, and 10, 9, 8 or 6 for the base graph 2 variants. */
  function InfoColumns(bg: int): (kb: nat)
    ensures kb in {22, 10, 9, 8, 6}
    ensures bg == 0 <==> kb == 22
  {
    if bg == 0 then 22
    else if bg == 1 then 10
    else if bg == 2 then 9
    else if bg == 3 then 8
    else 6
  }

  /** The decoder's mb: the information columns of the base graph plus
    * the parity rows used. */
  function DecoderColumns(baseGraph: int, nRows: nat): nat
  {
    if baseGraph == 1 then 22 + nRows else 10 + nRows
  }

  // ---------------------------------------------------------------
  // Control word
  // ---------------------------------------------------------------

  /** The fields of the accelerator control word. The encoder leaves
    * maxIter and scIdx at 0. */
  datatype CtrlFields = CtrlFields(maxSchedule: nat, rows: nat, id: nat, maxIter: nat,
                                   scIdx: nat, bg: nat, zSet: nat, zj: nat)

  /** The fields shifted to bits 30, 24, 19, 13, 9, 6, 3 and 0; the OR
    * of the source is a sum, the fields being disjoint. */
  function CtrlWord(f: CtrlFields): nat
  {
    f.maxSchedule * 0x4000_0000 + f.rows * 0x100_0000 + f.id * 0x8_0000 + f.maxIter * 0x2000
      + f.scIdx * 0x200 + f.bg * 0x40 + f.zSet * 0x8 + f.zj
  }

  /** Each field fits its bit range. */
  predicate FieldsFit(f: CtrlFields)
  {
    f.maxSchedule < 4 && f.rows < 64 && f.id < 32 && f.maxIter < 64
      && f.scIdx < 16 && f.bg < 8 && f.zSet < 8 && f.zj < 8
  }

  /** The fields as the accelerator reads them back from a word. */
  function UnpackCtrl(w: nat): (f: CtrlFields)
    ensures FieldsFit(f) || w >= 0x1_0000_0000
  {
    CtrlFields(w / 0x4000_0000, (w / 0x100_0000) % 64, (w / 0x8_0000) % 32, (w / 0x2000) % 64,
               (w / 0x200) % 16, (w / 0x40) % 8, (w / 0x8) % 8, w % 8)
  }

  /** Fields that fit come back unchanged, in a 32-bit word. */
  lemma CtrlRoundTrip(f: CtrlFields)
    requires FieldsFit(f)
    ensures CtrlWord(f) < 0x1_0000_0000 && UnpackCtrl(CtrlWord(f)) == f
  {
    var w := CtrlWord(f);
    var u7 := f.maxSchedule;
    var u6 := f.rows + 64 * u7;
    var u5 := f.id + 32 * u6;
    var u4 := f.maxIter + 64 * u5;
    var u3 := f.scIdx + 16 * u4;
    var u2 := f.bg + 8 * u3;
    var u1 := f.zSet + 8 * u2;
    assert w == f.zj + 8 * u1;
    DivModUnique(w, 8, u1, f.zj);
    DivModUnique(w, 0x40, u2, f.zSet * 8 + f.zj);
    DivModUnique(w, 0x200, u3, f.bg * 0x40 + f.zSet * 8 + f.zj);
    DivModUnique(w, 0x2000, u4, f.scIdx * 0x200 + f.bg * 0x40 + f.zSet * 8 + f.zj);
    DivModUnique(w, 0x8_0000, u5, w - 0x8_0000 * u5);
    DivModUnique(w, 0x100_0000, u6, w - 0x100_0000 * u6);
    DivModUnique(w, 0x4000_0000, u7, w - 0x4000_0000 * u7);
    DivModUnique(u1, 8, u2, f.zSet);
    DivModUnique(u2, 8, u3, f.bg);
    DivModUnique(u3, 16, u4, f.scIdx);
    DivModUnique(u4, 64, u5, f.maxIter);
    DivModUnique(u5, 32, u6, f.id);
    DivModUnique(u6, 64, u7, f.rows);
  }

  /** The encoder's control word: mb is kb_1 + kb, so the rows field is
    * kb_1; id is the code-block count. */
  function EncoderCtrl(kb1: nat, bgSel: int, zSetParam: int, zj: nat, cbNum: nat): (w: nat)
    requires bgSel >= 1 && zSetParam >= 1
  {
    var bg := bgSel - 1;
    var mb := kb1 + InfoColumns(bg);
    CtrlWord(CtrlFields(0, mb - InfoColumns(bg), cbNum, 0, 0, bg, zSetParam - 1, zj))
  }

  /** The decoder's control word: eight iterations, schedule index 12. */
  function DecoderCtrl(mb: nat, bgSel: int, zSetParam: int, zj: nat, cbNum: nat): (w: nat)
    requires bgSel >= 1 && zSetParam >= 1 && mb >= InfoColumns(bgSel - 1)
  {
    var bg := bgSel - 1;
    CtrlWord(CtrlFields(0, mb - InfoColumns(bg), cbNum, 8, 12, bg, zSetParam - 1, zj))
  }

  /** The decoder configuration of a lifting size read back from its
    * control word: the parity rows, the code-block count, the base
    * graph, and a set index and exponent that rebuild Zc. */
  lemma DecoderCtrlFields(a: nat, j: nat, baseGraph: int, nRows: nat, cbNum: nat)
    requires LiftingSize(a, j) && baseGraph in {1, 2} && nRows < 64 && cbNum < 32
    ensures var zc := a * Pow2(j);
      var iLS := LiftingSetIndex(zc);
      var zj := TwoExponent(zc / LiftingBase(iLS));
      var mb := DecoderColumns(baseGraph, nRows);
      var f := UnpackCtrl(DecoderCtrl(mb, baseGraph, iLS + 1, zj, cbNum));
      f.rows == nRows && f.id == cbNum && f.bg == baseGraph - 1 && f.maxIter == 8 && f.scIdx == 12
      && ZSetBase(f.zSet) * Pow2(f.zj) == zc
  {
    var zc := a * Pow2(j);
    LiftingRecovered(a, j);
    var iLS := LiftingSetIndex(zc);
    var zj := TwoExponent(zc / LiftingBase(iLS));
    SmallExponent(a, j);
    DecoderRows(baseGraph, nRows);
    var fields := CtrlFields(0, nRows, cbNum, 8, 12, baseGraph - 1, iLS, zj);
    assert DecoderCtrl(DecoderColumns(baseGraph, nRows), baseGraph, iLS + 1, zj, cbNum) == CtrlWord(fields);
    CtrlRoundTrip(fields);
  }

  /** The rows field of the decoder is the parity rows used. */
  lemma DecoderRows(baseGraph: int, nRows: nat)
    requires baseGraph in {1, 2}
    ensures DecoderColumns(baseGraph, nRows) - InfoColumns(baseGraph - 1) == nRows
  {
  }

  /** The exponent of a lifting size fits the 3-bit z_j field. */
  lemma SmallExponent(a: nat, j: nat)
    requires LiftingSize(a, j)
    ensures j < 8
  {
    assert Pow2(j) <= 192 by {
      assert a >= 2;
      MulMonotone(2, a, Pow2(j));
    }
    PowSmallExponent(j);
  }

  /** A power of two that is at most 192 has exponent below 8. */
  lemma PowSmallExponent(j: nat)
    ensures Pow2(j) <= 192 ==> j < 8
  {
    if j >= 8 {
      PowMonotone(8, j);
    }
  }

  /** The encoder's rows field is kb_1 whatever the base graph. */
  lemma EncoderCtrlFields(kb1: nat, bgSel: int, zSetParam: int, zj: nat, cbNum: nat)
    requires 1 <= bgSel <= 8 && 1 <= zSetParam <= 8 && zj < 8 && kb1 < 64 && cbNum < 32
    ensures var f := UnpackCtrl(EncoderCtrl(kb1, bgSel, zSetParam, zj, cbNum));
      f.rows == kb1 && f.id == cbNum && f.bg == bgSel - 1 && f.zSet == zSetParam - 1 && f.zj == zj
      && f.maxIter == 0 && f.scIdx == 0
  {
    CtrlRoundTrip(CtrlFields(0, kb1, cbNum, 0, 0, bgSel - 1, zSetParam - 1, zj));
  }

  // ---------------------------------------------------------------
  // DMA sizes
  // ---------------------------------------------------------------

  /** n rounded up to a multiple of m, as the source writes it. */
  function RoundUp(n: nat, m: nat): nat
    requires m > 0
  {
    if n % m == 0 then n else m * (n / m + 1)
  }

  /** Rounding up is the next multiple of m. */
  lemma RoundUpIsCeil(n: nat, m: nat)
    requires m > 0
    ensures RoundUp(n, m) == m * CeilDiv(n, m)
    ensures n <= RoundUp(n, m) < n + m && RoundUp(n, m) % m == 0
  {
    var q, r := n / m, n % m;
    assert n == m * q + r;
    if r == 0 {
      DivModUnique(n + m - 1, m, q, m - 1);
    } else {
      DivModUnique(n + m - 1, m, q + 1, r - 1);
    }
    DivModUnique(m * CeilDiv(n, m), m, CeilDiv(n, m), 0);
  }

  /** The encoder's per-block count of 32-bit words for `bits` bits:
    * bits >> 5 when they fill 128-bit beats, else the beats rounded up,
    * four words each. */
  function EncoderWords(bits: nat): nat
  {
    if bits % 128 == 0 then bits / 32 else (bits / 128 + 1) * 4
  }

  /** Four words per started 128-bit beat. */
  lemma EncoderWordsAreBeats(bits: nat)
    ensures EncoderWords(bits) == 4 * CeilDiv(bits, 128)
  {
    RoundUpIsCeil(bits, 128);
    var q := bits / 128;
    if bits % 128 == 0 {
      assert bits == 128 * q;
      DivModUnique(bits, 32, 4 * q, 0);
    }
  }

  /** Bytes the encoder reads back (Z * mb bits per block) or writes
    * (Z * kb bits per block), for cbNum blocks. */
  function EncoderTransfer(zVal: nat, columns: nat, cbNum: nat): nat
  {
    (EncoderWords(zVal * columns) * 4) * cbNum
  }

  /** Each block gets a 16-byte-aligned slot that holds its bits. */
  lemma EncoderTransferCovers(zVal: nat, columns: nat, cbNum: nat)
    ensures var slot := 16 * CeilDiv(zVal * columns, 128);
      EncoderTransfer(zVal, columns, cbNum) == slot * cbNum
      && 8 * slot >= zVal * columns && 8 * slot < zVal * columns + 128
  {
    EncoderWordsAreBeats(zVal * columns);
    RoundUpIsCeil(zVal * columns, 128);
  }

  /** n rounded up to 32 bytes, the source's `((n + 31) >> 5) << 5`. */
  function Align32(n: nat): nat
  {
    if n % 32 != 0 then ((n + 31) / 32) * 32 else n
  }

  lemma Align32Bounds(n: nat)
    ensures Align32(n) % 32 == 0 && n <= Align32(n) < n + 32
  {
    RoundUpIsCeil(n, 32);
    DivModUnique(Align32(n), 32, (n + 31) / 32, 0);
  }

  /** Bytes the decoder writes: one byte per LLR (Z * mb * 8 bits per
    * block) rounded to 128 bits per block, the total aligned to 32. */
  function DecoderWriteBytes(zVal: nat, mb: nat, cbNum: nat): nat
  {
    Align32((RoundUp(zVal * mb * 8, 128) * cbNum) / 8)
  }

  /** Bytes the decoder reads back for Z * kb hard bits per block: with
    * an odd block count each block is rounded to 256 bits, else to 128
    * bits and the total aligned to 32 bytes. */
  function DecoderReadBytes(zVal: nat, kb: nat, cbNum: nat): nat
  {
    if cbNum % 2 == 1 then (RoundUp(zVal * kb, 256) * cbNum) / 8
    else Align32((RoundUp(zVal * kb, 128) * cbNum) / 8)
  }

  /** The decoder's write holds every LLR byte and is 32-byte aligned. */
  lemma DecoderWriteCovers(zVal: nat, mb: nat, cbNum: nat)
    ensures DecoderWriteBytes(zVal, mb, cbNum) % 32 == 0
    ensures DecoderWriteBytes(zVal, mb, cbNum) >= zVal * mb * cbNum
  {
    var llrs := zVal * mb;
    var bits := llrs * 8;
    RoundUpIsCeil(bits, 128);
    var c := CeilDiv(bits, 128);
    var slots := 16 * c * cbNum;
    BytesOfBeats(RoundUp(bits, 128), 16, c, cbNum);
    MulMonotone(llrs, 16 * c, cbNum);
    Align32Bounds(slots);
  }

  /** The decoder's read holds every output bit and is 32-byte aligned:
    * a 256-bit block slot is 32 bytes. */
  lemma DecoderReadCovers(zVal: nat, kb: nat, cbNum: nat)
    ensures DecoderReadBytes(zVal, kb, cbNum) % 32 == 0
    ensures 8 * DecoderReadBytes(zVal, kb, cbNum) >= zVal * kb * cbNum
  {
    var bits := zVal * kb;
    if cbNum % 2 == 1 {
      RoundUpIsCeil(bits, 256);
      var c := CeilDiv(bits, 256);
      BytesOfBeats(RoundUp(bits, 256), 32, c, cbNum);
      DivModUnique(32 * c * cbNum, 32, c * cbNum, 0);
      MulMonotone(bits, RoundUp(bits, 256), cbNum);
    } else {
      RoundUpIsCeil(bits, 128);
      var c := CeilDiv(bits, 128);
      BytesOfBeats(RoundUp(bits, 128), 16, c, cbNum);
      MulMonotone(bits, RoundUp(bits, 128), cbNum);
      Align32Bounds(16 * c * cbNum);
    }
  }

  /** n blocks of c beats of `bytes` bytes, counted in bits, back in
    * bytes. */
  lemma BytesOfBeats(rounded: nat, bytes: nat, c: nat, n: nat)
    requires rounded == 8 * bytes * c
    ensures (rounded * n) / 8 == bytes * c * n && rounded * n == 8 * (bytes * c * n)
  {
    var slots := bytes * c * n;
    assert rounded * n == 8 * slots;
    DivModUnique(rounded * n, 8, slots, 0);
  }

  // ---------------------------------------------------------------
  // Code-block offsets
  // ---------------------------------------------------------------

  /** The byte offset between consecutive code blocks holding `bits`
    * bits: bits / 8 when they fill 128-bit beats, else 16 bytes per
    * started beat. */
  function CbOffset(bits: nat): nat
  {
    if bits % 128 == 0 then bits / 8 else 16 * (bits / 128 + 1)
  }

  /** The offset is 16 bytes per started 128-bit beat: aligned to 16,
    * large enough for the block, and less than one beat of slack. */
  lemma CbOffsetRounds(bits: nat)
    ensures CbOffset(bits) == 16 * CeilDiv(bits, 128)
    ensures CbOffset(bits) % 16 == 0 && bits <= 8 * CbOffset(bits) < bits + 128
  {
    RoundUpIsCeil(bits, 128);
    if bits % 128 == 0 {
      var q := bits / 128;
      assert bits == 128 * q;
      DivModUnique(bits, 8, 16 * q, 0);
    }
    DivModUnique(CbOffset(bits), 16, CeilDiv(bits, 128), 0);
  }

  /** The decoder's input offset: Zc * mb LLRs of 8 bits. */
  function DecoderInputCbOffset(zc: nat, mb: nat): nat
  {
    CbOffset(zc * mb * 8)
  }

  /** The decoder's output offset: Zc * (mb - nRows) hard bits. */
  function DecoderOutputCbOffset(zc: nat, mb: nat, nRows: nat): nat
    requires mb >= nRows
  {
    CbOffset(zc * (mb - nRows))
  }
}
