// UE-side CSI-RS measurements: which OFDM symbols a CSI-RS resource
// occupies, the noise power estimate over the measured resource blocks,
// and the rank, precoder (PMI) and channel-quality (CQI) decisions.
module CsiRx {
  import opened Common
  import opened Arithmetic

  const Two32 := 0x1_0000_0000
  const Two64 := 0x1_0000_0000_0000_0000

  // ---------------------------------------------------------------------
  // CSI-RS locations within a slot (TS 38.211 Table 7.4.1.5.3-1)
  // ---------------------------------------------------------------------

  /** Code-division multiplexing type of a table row. */
  datatype CdmType = NoCdm | FdCdm2 | Cdm4FdTd2 | Cdm8FdTd4

  /** Number of time-domain positions l' a CDM group spans. */
  function CdmTimeLength(c: CdmType): (n: nat)
    ensures 1 <= n <= 4
  {
    match c
    case NoCdm => 1
    case FdCdm2 => 1
    case Cdm4FdTd2 => 2
    case Cdm8FdTd4 => 4
  }

  /** One row of the table: the symbols l-bar of the CDM groups, as offsets
    * from l0 and from l1, and the CDM type. */
  datatype CsiRsRow = CsiRsRow(ports: nat, cdm: CdmType, fromL0: seq<nat>, fromL1: seq<nat>)

  function CsiRsTable(row: int): (r: Option<CsiRsRow>)
    ensures r.Some? <==> 1 <= row <= 18
  {
    if row == 1 then Some(CsiRsRow(1, NoCdm, [0], []))
    else if row == 2 then Some(CsiRsRow(1, NoCdm, [0], []))
    else if row == 3 then Some(CsiRsRow(2, FdCdm2, [0], []))
    else if row == 4 then Some(CsiRsRow(4, FdCdm2, [0], []))
    else if row == 5 then Some(CsiRsRow(4, FdCdm2, [0, 1], []))
    else if row == 6 then Some(CsiRsRow(8, FdCdm2, [0], []))
    else if row == 7 then Some(CsiRsRow(8, FdCdm2, [0, 1], []))
    else if row == 8 then Some(CsiRsRow(8, Cdm4FdTd2, [0], []))
    else if row == 9 then Some(CsiRsRow(12, FdCdm2, [0], []))
    else if row == 10 then Some(CsiRsRow(12, Cdm4FdTd2, [0], []))
    else if row == 11 then Some(CsiRsRow(16, FdCdm2, [0, 1], []))
    else if row == 12 then Some(CsiRsRow(16, Cdm4FdTd2, [0], []))
    else if row == 13 then Some(CsiRsRow(24, FdCdm2, [0, 1], [0, 1]))
    else if row == 14 then Some(CsiRsRow(24, Cdm4FdTd2, [0], [0]))
    else if row == 15 then Some(CsiRsRow(24, Cdm8FdTd4, [0], []))
    else if row == 16 then Some(CsiRsRow(32, FdCdm2, [0, 1], [0, 1]))
    else if row == 17 then Some(CsiRsRow(32, Cdm4FdTd2, [0], [0]))
    else if row == 18 then Some(CsiRsRow(32, Cdm8FdTd4, [0], []))
    else None
  }

  /** Symbol s is one of l-bar + l' for some l-bar = base + offsets[i] and
    * 0 <= l' < span. */
  predicate InSpread(s: int, base: int, offsets: seq<nat>, span: nat)
  {
    |offsets| > 0 && ((base + offsets[0] <= s < base + offsets[0] + span) || InSpread(s, base, offsets[1..], span))
  }

  lemma SpreadOfOne(s: int, base: int, o: nat, span: nat)
    ensures InSpread(s, base, [o], span) <==> base + o <= s < base + o + span
  {
    assert [o][1..] == [];
  }

  lemma SpreadOfTwo(s: int, base: int, span: nat)
    requires span >= 1
    ensures InSpread(s, base, [0, 1], span) <==> base <= s < base + 1 + span
  {
    assert [0, 1][1..] == [1];
    SpreadOfOne(s, base, 1, span);
  }

  /** The table's statement that a resource of this row occupies symbol s. */
  predicate RowOccupies(e: CsiRsRow, l0: int, l1: int, s: int)
  {
    InSpread(s, l0, e.fromL0, CdmTimeLength(e.cdm)) || InSpread(s, l1, e.fromL1, CdmTimeLength(e.cdm))
  }

  /** is_csi_rs_in_symbol as the source writes it: a switch on the row
    * number; rows outside 1..18 abort. */
  function CsiRsInSymbolAsWritten(row: int, l0: int, l1: int, symbol: int): (r: Outcome<bool>)
    ensures r.Fatal? <==> !(1 <= row <= 18)
    ensures r.Ok? && (row == 15 || row == 18) ==> (r.value <==> l0 <= symbol <= l0 + 2)
  {
    if row in {1, 2, 3, 4, 6, 9} then Ok(symbol == l0)
    else if row in {5, 7, 8, 10, 11, 12} then Ok(symbol == l0 || symbol == l0 + 1)
    else if row in {13, 14, 16, 17} then Ok(symbol == l0 || symbol == l0 + 1 || symbol == l1 || symbol == l1 + 1)
    else if row in {15, 18} then Ok(symbol == l0 || symbol == l0 + 1 || symbol == l0 + 2)
    else Fatal
  }

  /** Corrected membership test: exactly the symbols the table lists. */
  function CsiRsInSymbol(row: int, l0: int, l1: int, symbol: int): (r: Outcome<bool>)
    ensures r.Fatal? <==> !(1 <= row <= 18)
    ensures r.Ok? && (row == 15 || row == 18) ==> (r.value <==> l0 <= symbol <= l0 + 3)
  {
    match CsiRsTable(row)
    case None => Fatal
    case Some(e) =>
      SpreadOfOne(symbol, l0, 0, 4);
      Ok(RowOccupies(e, l0, l1, symbol))
  }

  /** Outside the CDM8 rows the switch lists exactly the table's symbols. */
  lemma AsWrittenSymbolsMatchTable(row: int, l0: int, l1: int, symbol: int)
    requires row != 15 && row != 18
    ensures CsiRsInSymbolAsWritten(row, l0, l1, symbol) == CsiRsInSymbol(row, l0, l1, symbol)
  {
    var t := CsiRsTable(row);
    if t.Some? {
      var span := CdmTimeLength(t.value.cdm);
      SpreadOfOne(symbol, l0, 0, span);
      SpreadOfTwo(symbol, l0, span);
      SpreadOfOne(symbol, l1, 0, span);
      SpreadOfTwo(symbol, l1, span);
    }
  }

  /** The CDM8 rows (FD2-TD4) span four symbols; the switch drops l0 + 3. */
  lemma AsWrittenCdm8MissesFourthSymbol(row: int, l0: int, l1: int)
    requires row == 15 || row == 18
    ensures CsiRsInSymbolAsWritten(row, l0, l1, l0 + 3) == Ok(false)
    ensures CsiRsInSymbol(row, l0, l1, l0 + 3) == Ok(true)
  {
  }

  /** The corrected test adds exactly the symbol l0 + 3 on the CDM8 rows. */
  lemma CsiRsInSymbolExtendsAsWritten(row: int, l0: int, l1: int, symbol: int)
    requires 1 <= row <= 18
    ensures CsiRsInSymbol(row, l0, l1, symbol).value
        <==> (CsiRsInSymbolAsWritten(row, l0, l1, symbol).value || ((row == 15 || row == 18) && symbol == l0 + 3))
  {
    if row != 15 && row != 18 {
      AsWrittenSymbolsMatchTable(row, l0, l1, symbol);
    }
  }

  // ---------------------------------------------------------------------
  // Noise power over the measured resource blocks (calc_power_csirs)
  // ---------------------------------------------------------------------

  /** Relative RB rb of a resource starting at startRb is measured: with
    * density 0.5 (freq_density 0 or 1) only RBs of that parity count. */
  predicate RbMeasured(freqDensity: nat, startRb: nat, rb: nat)
  {
    !(freqDensity <= 1 && freqDensity != (rb + startRb) % 2)
  }

  /** The samples x[rb], rb < n, of the measured RBs, in order. */
  function Measured(x: seq<nat>, freqDensity: nat, startRb: nat, n: nat): (m: seq<nat>)
    requires n <= |x|
    ensures |m| <= n
    ensures forall v :: v in m ==> v in x[..n]
  {
    if n == 0 then []
    else
      var prev := Measured(x, freqDensity, startRb, n - 1);
      assert x[..n] == x[..n - 1] + [x[n - 1]];
      if RbMeasured(freqDensity, startRb, n - 1) then prev + [x[n - 1]] else prev
  }

  function Sum(v: seq<nat>): nat
  {
    if v == [] then 0 else Sum(v[..|v| - 1]) + v[|v| - 1]
  }

  function SumSquares(v: seq<nat>): nat
  {
    if v == [] then 0 else SumSquares(v[..|v| - 1]) + v[|v| - 1] * v[|v| - 1]
  }

  /** The source's estimate with exact arithmetic: E[x^2] - E[x]^2, each
    * mean an integer quotient. */
  function IntegerVariance(v: seq<nat>): int
    requires |v| > 0
  {
    SumSquares(v) / |v| - (Sum(v) / |v|) * (Sum(v) / |v|)
  }

  lemma DeviationStep(q: int, s: int, n: int, a: int, y: int)
    requires q - 2 * y * s + n * y * y >= 0
    ensures (q + a * a) - 2 * y * (s + a) + (n + 1) * y * y >= 0
  {
    assert (q + a * a) - 2 * y * (s + a) + (n + 1) * y * y == (q - 2 * y * s + n * y * y) + (a - y) * (a - y);
  }

  /** Sum of squared deviations from y, expanded: never negative. */
  lemma {:induction false} DeviationsNonNegative(v: seq<nat>, y: int)
    ensures SumSquares(v) - 2 * y * Sum(v) + |v| * y * y >= 0
  {
    if v != [] {
      var w, a := v[..|v| - 1], v[|v| - 1];
      DeviationsNonNegative(w, y);
      DeviationStep(SumSquares(w), Sum(w), |w|, a, y);
    }
  }

  lemma CauchyStep(s: int, q: int, n: int, a: int)
    requires s * s <= n * q
    requires q - 2 * a * s + n * a * a >= 0
    ensures (s + a) * (s + a) <= (n + 1) * (q + a * a)
  {
    assert (n + 1) * (q + a * a) - (s + a) * (s + a) == (n * q - s * s) + (q - 2 * a * s + n * a * a);
  }

  /** Cauchy-Schwarz for the samples: Sum^2 <= n * SumSquares. */
  lemma {:induction false} SumSquaredBound(v: seq<nat>)
    ensures Sum(v) * Sum(v) <= |v| * SumSquares(v)
  {
    if v != [] {
      var w, a := v[..|v| - 1], v[|v| - 1];
      SumSquaredBound(w);
      DeviationsNonNegative(w, a);
      CauchyStep(Sum(w), SumSquares(w), |w|, a);
    }
  }

  /** (s / n)^2 <= q / n whenever s^2 <= n * q. */
  lemma QuotientSquareBound(s: nat, q: nat, n: nat)
    requires n > 0 && s * s <= n * q
    ensures (s / n) * (s / n) <= q / n
  {
    var m := s / n;
    DivMulLe(s, n);
    SquareMonotone(m * n, s);
    assert (m * n) * (m * n) == n * ((m * m) * n);
    MulCancelLe((m * m) * n, q, n);
    LeDivOfMulLe(m * m, n, q);
  }

  lemma SquareMonotone(a: nat, b: nat)
    requires a <= b
    ensures a * a <= b * b
  {
    MulMonotone(a, b, a);
    MulMonotone(a, b, b);
  }

  lemma MulCancelLe(a: int, b: int, n: int)
    requires n > 0 && n * a <= n * b
    ensures a <= b
  {
    if a > b {
      MulMonotone(b + 1, a, n);
    }
  }

  lemma BoundStep(q: nat, s: nat, n: nat, a: nat, limit: nat)
    requires q <= n * (limit * limit) && s <= n * limit && a <= limit
    ensures q + a * a <= (n + 1) * (limit * limit) && s + a <= (n + 1) * limit
  {
    MulMonotone(a, limit, a);
    MulMonotone(a, limit, limit);
  }

  /** Samples at most `limit` bound the sum and the sum of squares. */
  lemma {:induction false} SumSquaresBound(v: seq<nat>, limit: nat)
    requires forall i :: 0 <= i < |v| ==> v[i] <= limit
    ensures SumSquares(v) <= |v| * (limit * limit)
    ensures Sum(v) <= |v| * limit
  {
    if v != [] {
      var w, a := v[..|v| - 1], v[|v| - 1];
      SumSquaresBound(w, limit);
      BoundStep(SumSquares(w), Sum(w), |w|, a, limit);
    }
  }

  /** The estimate is never negative (so the unsigned subtraction cannot
    * wrap) and stays below 2^32 for 16-bit samples (so the uint32 result
    * is not truncated). */
  lemma IntegerVarianceRange(v: seq<nat>)
    requires |v| > 0
    requires forall i :: 0 <= i < |v| ==> v[i] < 0x1_0000
    ensures 0 <= IntegerVariance(v) < Two32
  {
    SumSquaredBound(v);
    QuotientSquareBound(Sum(v), SumSquares(v), |v|);
    SumSquaresBound(v, 0xFFFF);
    MulDivCancel(0xFFFF * 0xFFFF, |v|);
    assert |v| * (0xFFFF * 0xFFFF) == (0xFFFF * 0xFFFF) * |v|;
    DivMonotone(SumSquares(v), (0xFFFF * 0xFFFF) * |v|, |v|);
  }

  /** Corrected calc_power_csirs: the estimate over the measured RBs with the
    * square taken in 64 bits; no RB measured means a division by zero. */
  function CalcPowerCsirs(x: seq<nat>, freqDensity: nat, startRb: nat, nrOfRbs: nat): (r: Outcome<nat>)
    requires nrOfRbs <= |x|
    requires forall i :: 0 <= i < |x| ==> x[i] < 0x1_0000
    ensures r.Fatal? <==> forall rb :: 0 <= rb < nrOfRbs ==> !RbMeasured(freqDensity, startRb, rb)
    ensures r.Ok? ==> r.value < Two32
  {
    var m := Measured(x, freqDensity, startRb, nrOfRbs);
    MeasuredEmpty(x, freqDensity, startRb, nrOfRbs);
    if |m| == 0 then Fatal
    else
      assert forall i :: 0 <= i < |m| ==> m[i] < 0x1_0000 by {
        forall i | 0 <= i < |m| ensures m[i] < 0x1_0000 {
          assert m[i] in x[..nrOfRbs];
        }
      }
      IntegerVarianceRange(m);
      Ok(IntegerVariance(m))
  }

  lemma {:induction false} MeasuredEmpty(x: seq<nat>, freqDensity: nat, startRb: nat, n: nat)
    requires n <= |x|
    ensures |Measured(x, freqDensity, startRb, n)| == 0 <==> forall rb :: 0 <= rb < n ==> !RbMeasured(freqDensity, startRb, rb)
  {
    if n > 0 {
      MeasuredEmpty(x, freqDensity, startRb, n - 1);
    }
  }

  /** Running sums of the source's loop: sum_x and sum_x2 are uint64, size
    * uint16, and x[rb] * x[rb] is computed in (32-bit) int. */
  datatype PowerSums = PowerSums(sumX: nat, sumX2: nat, size: nat)

  /** The square of a 16-bit sample as the source computes it: an int
    * product, sign-extended when added to the uint64 sum. */
  function SquareAsWritten(v: nat): (r: nat)
    ensures v * v < -IntMin ==> r == v * v
  {
    Wrap32(v * v) % Two64
  }

  function PowerSumsAsWritten(x: seq<nat>, freqDensity: nat, startRb: nat, n: nat): (r: PowerSums)
    requires n <= |x|
    ensures r.size <= n
  {
    if n == 0 then PowerSums(0, 0, 0)
    else
      var p := PowerSumsAsWritten(x, freqDensity, startRb, n - 1);
      if !RbMeasured(freqDensity, startRb, n - 1) then p
      else
        var size := if p.size + 1 < 0x1_0000 then p.size + 1 else 0;
        PowerSums((p.sumX + x[n - 1]) % Two64, (p.sumX2 + SquareAsWritten(x[n - 1])) % Two64, size)
  }

  /** calc_power_csirs as written: uint64 quotients and difference, returned
    * as uint32. */
  function CalcPowerCsirsAsWritten(x: seq<nat>, freqDensity: nat, startRb: nat, nrOfRbs: nat): (r: Outcome<nat>)
    requires nrOfRbs <= |x|
    ensures r.Ok? ==> r.value < Two32
  {
    var p := PowerSumsAsWritten(x, freqDensity, startRb, nrOfRbs);
    if p.size == 0 then Fatal
    else Ok(UnsignedResult(p.sumX2 / p.size - (p.sumX / p.size) * (p.sumX / p.size)))
  }

  /** A uint64 difference returned as uint32. */
  function UnsignedResult(v: int): (r: nat)
    ensures r < Two32
    ensures 0 <= v < Two32 ==> r == v
  {
    (v % Two64) % Two32
  }

  /** Fewer than 2^16 samples of at most 46340 keep both sums far below
    * 2^64. */
  lemma SumsFit(len: nat, s: nat, q: nat)
    requires len < 0x1_0000 && s <= len * 46340 && q <= len * (46340 * 46340)
    ensures s + 46340 < Two64 && q + 46340 * 46340 < Two64
    ensures len + 1 <= 0x1_0000
  {
    MulMonotone(len, 0x1_0000, 46340);
    MulMonotone(len, 0x1_0000, 46340 * 46340);
  }

  lemma SquareFitsInt(a: nat)
    requires a <= 46340
    ensures a * a < -IntMin
  {
    MulMonotone(a, 46340, a);
    MulMonotone(a, 46340, 46340);
  }

  lemma SumsOfSnoc(prev: seq<nat>, a: nat)
    ensures Sum(prev + [a]) == Sum(prev) + a
    ensures SumSquares(prev + [a]) == SumSquares(prev) + a * a
  {
    assert (prev + [a])[..|prev|] == prev;
  }

  /** A measured sample whose square fits an int adds exactly to the sums. */
  lemma MeasuredSampleStep(x: seq<nat>, freqDensity: nat, startRb: nat, n: nat)
    requires 1 <= n <= |x| && RbMeasured(freqDensity, startRb, n - 1)
    requires x[n - 1] * x[n - 1] < -IntMin
    requires var p := PowerSumsAsWritten(x, freqDensity, startRb, n - 1);
      p.sumX + x[n - 1] < Two64 && p.sumX2 + x[n - 1] * x[n - 1] < Two64 && p.size + 1 < 0x1_0000
    ensures var p := PowerSumsAsWritten(x, freqDensity, startRb, n - 1);
      PowerSumsAsWritten(x, freqDensity, startRb, n)
      == PowerSums(p.sumX + x[n - 1], p.sumX2 + x[n - 1] * x[n - 1], p.size + 1)
  {
    var p := PowerSumsAsWritten(x, freqDensity, startRb, n - 1);
    var a := x[n - 1];
    ModSmall(p.sumX + a, Two64);
    ModSmall(p.sumX2 + a * a, Two64);
    assert SquareAsWritten(a) == a * a;
  }

  /** With samples whose square fits an int and fewer than 2^16 RBs the
    * running sums are the exact sums of the measured samples. */
  lemma {:induction false} PowerSumsExact(x: seq<nat>, freqDensity: nat, startRb: nat, n: nat)
    requires n <= |x| && n < 0x1_0000
    requires forall i :: 0 <= i < |x| ==> x[i] <= 46340
    ensures var p := PowerSumsAsWritten(x, freqDensity, startRb, n);
      var m := Measured(x, freqDensity, startRb, n);
      p == PowerSums(Sum(m), SumSquares(m), |m|)
  {
    if n > 0 {
      PowerSumsExact(x, freqDensity, startRb, n - 1);
      var prev := Measured(x, freqDensity, startRb, n - 1);
      if RbMeasured(freqDensity, startRb, n - 1) {
        var a := x[n - 1];
        assert Measured(x, freqDensity, startRb, n) == prev + [a];
        SquareFitsInt(a);
        assert forall i :: 0 <= i < |prev| ==> prev[i] <= 46340 by {
          forall i | 0 <= i < |prev| ensures prev[i] <= 46340 {
            assert prev[i] in x[..n - 1];
          }
        }
        SumSquaresBound(prev, 46340);
        SumsFit(|prev|, Sum(prev), SumSquares(prev));
        MeasuredSampleStep(x, freqDensity, startRb, n);
        SumsOfSnoc(prev, a);
      }
    }
  }

  /** Below the int overflow the source computes the corrected estimate. */
  lemma AsWrittenPowerAgreesBelowOverflow(x: seq<nat>, freqDensity: nat, startRb: nat, nrOfRbs: nat)
    requires nrOfRbs <= |x| && nrOfRbs < 0x1_0000
    requires forall i :: 0 <= i < |x| ==> x[i] <= 46340
    ensures CalcPowerCsirsAsWritten(x, freqDensity, startRb, nrOfRbs) == CalcPowerCsirs(x, freqDensity, startRb, nrOfRbs)
  {
    PowerSumsExact(x, freqDensity, startRb, nrOfRbs);
    MeasuredEmpty(x, freqDensity, startRb, nrOfRbs);
    var m := Measured(x, freqDensity, startRb, nrOfRbs);
    if |m| > 0 {
      assert forall i :: 0 <= i < |m| ==> m[i] < 0x1_0000 by {
        forall i | 0 <= i < |m| ensures m[i] < 0x1_0000 {
          assert m[i] in x[..nrOfRbs];
        }
      }
      IntegerVarianceRange(m);
      assert UnsignedResult(IntegerVariance(m)) == IntegerVariance(m);
    }
  }

  /** One sample of 46341 followed by five zero samples. */
  const OverflowSamples: seq<nat> := [46341, 0, 0, 0, 0, 0]

  /** 46341^2 as the source adds it to sum_x2: wrapped negative, then
    * sign-extended to 64 bits. */
  const WrappedSquare := 18446744071562072601

  /** A zero sample on a measured RB only counts one more RB. */
  lemma ZeroSampleStep(x: seq<nat>, freqDensity: nat, startRb: nat, k: nat)
    requires 1 <= k <= |x| && x[k - 1] == 0 && RbMeasured(freqDensity, startRb, k - 1)
    requires var p := PowerSumsAsWritten(x, freqDensity, startRb, k - 1);
      p.sumX < Two64 && p.sumX2 < Two64 && p.size + 1 < 0x1_0000
    ensures var p := PowerSumsAsWritten(x, freqDensity, startRb, k - 1);
      PowerSumsAsWritten(x, freqDensity, startRb, k) == PowerSums(p.sumX, p.sumX2, p.size + 1)
  {
    var p := PowerSumsAsWritten(x, freqDensity, startRb, k - 1);
    ModSmall(p.sumX, Two64);
    ModSmall(p.sumX2, Two64);
    assert SquareAsWritten(0) == 0;
  }

  lemma WrappedSquareValue()
    ensures SquareAsWritten(46341) == WrappedSquare
  {
    assert 46341 * 46341 == 2147488281;
    assert Wrap32(2147488281) == 2147488281 - Two32;
  }

  lemma {:induction false} OverflowSumsAt(x: seq<nat>, k: nat)
    requires x == OverflowSamples
    requires 1 <= k <= 6
    ensures PowerSumsAsWritten(x, 2, 0, k) == PowerSums(46341, WrappedSquare, k)
  {
    if k > 1 {
      OverflowSumsAt(x, k - 1);
      assert x[k - 1] == 0;
      ZeroSampleStep(x, 2, 0, k);
    } else {
      WrappedSquareValue();
      assert PowerSumsAsWritten(x, 2, 0, 0) == PowerSums(0, 0, 0);
    }
  }

  lemma {:induction false} OverflowMeasuredAt(x: seq<nat>, k: nat)
    requires x == OverflowSamples
    requires k <= 6
    ensures Measured(x, 2, 0, k) == x[..k]
  {
    if k > 0 {
      OverflowMeasuredAt(x, k - 1);
      assert x[..k] == x[..k - 1] + [x[k - 1]];
    }
  }

  lemma {:induction false} OverflowExactSumsAt(x: seq<nat>, k: nat)
    requires x == OverflowSamples
    requires 1 <= k <= 6
    ensures Sum(x[..k]) == 46341
    ensures SumSquares(x[..k]) == 46341 * 46341
  {
    if k > 1 {
      OverflowExactSumsAt(x, k - 1);
      assert x[..k][..k - 1] == x[..k - 1];
    } else {
      assert x[..1][..0] == [];
    }
  }

  /** One sample of 46341 among six RBs: its square overflows int, and the
    * as-written estimate differs from the exact one. */
  lemma AsWrittenPowerOverflows(x: seq<nat>)
    requires x == OverflowSamples
    ensures CalcPowerCsirsAsWritten(x, 2, 0, 6) == Ok(2445753632)
    ensures CalcPowerCsirs(x, 2, 0, 6) == Ok(298269984)
  {
    AsWrittenOverflowValue(x);
    CorrectedOverflowValue(x);
  }

  lemma AsWrittenFromSums(x: seq<nat>, freqDensity: nat, startRb: nat, n: nat, p: PowerSums)
    requires n <= |x| && PowerSumsAsWritten(x, freqDensity, startRb, n) == p && p.size > 0
    ensures CalcPowerCsirsAsWritten(x, freqDensity, startRb, n)
      == Ok(UnsignedResult(p.sumX2 / p.size - (p.sumX / p.size) * (p.sumX / p.size)))
  {
  }

  lemma OverflowQuotients()
    ensures UnsignedResult(WrappedSquare / 6 - (46341 / 6) * (46341 / 6)) == 2445753632
  {
    assert WrappedSquare / 6 == 3074457345260345433;
    assert 46341 / 6 == 7723;
  }

  lemma AsWrittenOverflowValue(x: seq<nat>)
    requires x == OverflowSamples
    ensures CalcPowerCsirsAsWritten(x, 2, 0, 6) == Ok(2445753632)
  {
    OverflowSumsAt(x, 6);
    AsWrittenFromSums(x, 2, 0, 6, PowerSums(46341, WrappedSquare, 6));
    OverflowQuotients();
  }

  lemma CorrectedOverflowValue(x: seq<nat>)
    requires x == OverflowSamples
    ensures CalcPowerCsirs(x, 2, 0, 6) == Ok(298269984)
  {
    OverflowMeasuredAt(x, 6);
    OverflowExactSumsAt(x, 6);
    assert x[..6] == x;
    assert IntegerVariance(x) == 2147488281 / 6 - 7723 * 7723;
  }

  // ---------------------------------------------------------------------
  // Rank indicator (nr_csi_rs_ri_estimation)
  // ---------------------------------------------------------------------

  /** Condition-number threshold in dB below which an RE favours rank 2. */
  const CondDbThreshold := 5

  function CountBelow(condDb: seq<int>, threshold: int): (c: nat)
    ensures c <= |condDb|
  {
    if condDb == [] then 0
    else CountBelow(condDb[..|condDb| - 1], threshold) + (if condDb[|condDb| - 1] < threshold then 1 else 0)
  }

  /** The rank decision: return code and rank_indicator (0 means rank 1).
    * condDb holds the per-RE condition numbers in dB of the 2x2 channel
    * matrix, which the fixed-point matrix routines compute. */
  method RankIndicator(nbAntennasRx: nat, nPorts: nat, condDb: seq<int>) returns (code: int, rank: nat)
    ensures nbAntennasRx == 1 || nPorts == 1 ==> code == 0 && rank == 0
    ensures code == -1 <==> nbAntennasRx != 1 && nPorts != 1 && !(nbAntennasRx == 2 && nPorts == 2)
    ensures code == 0 || code == -1
    ensures rank == 1 <==> nbAntennasRx == 2 && nPorts == 2 && 2 * CountBelow(condDb, CondDbThreshold) > |condDb|
    ensures rank <= 1
  {
    rank := 0;
    if nbAntennasRx == 1 || nPorts == 1 {
      return 0, 0;
    } else if !(nbAntennasRx == 2 && nPorts == 2) {
      return -1, 0;
    }
    var count := 0;
    var i := 0;
    while i < |condDb|
      invariant 0 <= i <= |condDb|
      invariant count == 2 * CountBelow(condDb[..i], CondDbThreshold) - i
    {
      assert condDb[..i + 1][..i] == condDb[..i];
      if condDb[i] < CondDbThreshold {
        count := count + 1;
      } else {
        count := count - 1;
      }
      i := i + 1;
    }
    assert condDb[..i] == condDb;
    if count > 0 {
      rank := 1;
    }
    code := 0;
  }

  // ---------------------------------------------------------------------
  // Precoding matrix indicator (nr_csi_rs_pmi_estimation)
  // ---------------------------------------------------------------------

  /** Index i2 of the first candidate with the largest tested SINR. */
  method BestCandidate(sinr: seq<int>) returns (i2: nat)
    requires |sinr| > 0
    ensures i2 < |sinr|
    ensures forall j :: 0 <= j < |sinr| ==> sinr[j] <= sinr[i2]
    ensures forall j :: 0 <= j < i2 ==> sinr[j] < sinr[i2]
  {
    i2 := 0;
    var t := 0;
    while t < |sinr|
      invariant 0 <= t <= |sinr| && i2 < |sinr| && i2 <= t
      invariant forall j :: 0 <= j < t ==> sinr[j] <= sinr[i2]
      invariant forall j :: 0 <= j < i2 ==> sinr[j] < sinr[i2]
    {
      if sinr[t] > sinr[i2] {
        i2 := t;
      }
      t := t + 1;
    }
  }

  /** Output of the PMI step: return code, i2, and the linear SINR handed to
    * the dB conversion (None when precoded_sinr_dB keeps its zero value). */
  datatype PmiReport = PmiReport(code: int, i2: nat, linearSinr: Option<int>)

  /** tested_precoded_sinr of one candidate: power_re + power_im over the
    * interference-plus-noise power, a signed 64-bit quotient. */
  function TestedSinr(power: int, interferencePlusNoise: nat): (r: int)
    requires interferencePlusNoise > 0
    ensures power >= 0 ==> r == power / interferencePlusNoise
  {
    TruncDiv(power, interferencePlusNoise)
  }

  /** The PMI decision for two ports. powers[p] is power_re + power_im of
    * candidate precoder p (H_p0 + H_p1, + j H_p1, - H_p1, - j H_p1). */
  method PmiEstimation(nPorts: nat, interferencePlusNoise: nat, rank: nat, powers: seq<int>)
    returns (r: PmiReport)
    requires |powers| == 4
    ensures nPorts == 1 || interferencePlusNoise == 0 ==> r == PmiReport(0, 0, None)
    ensures r.code == -1 <==> nPorts != 1 && interferencePlusNoise != 0 && rank > 1
    ensures r.code == 0 || r.code == -1
    ensures r.code == -1 ==> r == PmiReport(-1, 0, None)
    ensures r.linearSinr.Some? ==> interferencePlusNoise > 0 && rank <= 1
    ensures r.linearSinr.Some? && rank == 0 ==>
      r.i2 < 4 && r.linearSinr.value == TestedSinr(powers[r.i2], interferencePlusNoise)
      && (forall p :: 0 <= p < 4 ==> TestedSinr(powers[p], interferencePlusNoise) <= r.linearSinr.value)
      && (forall p :: 0 <= p < r.i2 ==> TestedSinr(powers[p], interferencePlusNoise) < r.linearSinr.value)
    ensures r.linearSinr.Some? && rank == 1 ==>
      var s := seq(4, p requires 0 <= p < 4 => TestedSinr(powers[p], interferencePlusNoise));
      (r.i2 == 0 <==> s[0] + s[2] > s[1] + s[3]) && r.i2 <= 1
      && r.linearSinr.value == (s[r.i2] + s[r.i2 + 2]) / 2
    ensures nPorts != 1 && interferencePlusNoise != 0 && rank <= 1 ==> r.code == 0 && r.linearSinr.Some?
  {
    if nPorts == 1 || interferencePlusNoise == 0 {
      return PmiReport(0, 0, None);
    }
    if rank > 1 {
      return PmiReport(-1, 0, None);
    }
    var s := seq(4, p requires 0 <= p < 4 => TestedSinr(powers[p], interferencePlusNoise));
    if rank == 0 {
      var i2 := BestCandidate(s);
      r := PmiReport(0, i2, Some(s[i2]));
    } else {
      var i2 := if s[0] + s[2] > s[1] + s[3] then 0 else 1;
      r := PmiReport(0, i2, Some((s[i2] + s[i2 + 2]) / 2));
    }
  }

  // ---------------------------------------------------------------------
  // Channel quality indicator (nr_csi_rs_cqi_estimation)
  // ---------------------------------------------------------------------

  /** Lowest precoded SINR in dB reported with CQI 4, 5, ..., 15 (the
    * default AWGN table for 10% BLER against TS 38.214 Table 5.2.2.1-2). */
  const CqiLowerBounds: seq<nat> := [1, 3, 4, 6, 8, 10, 11, 13, 16, 17, 19, 20]

  function Cqi(sinr: nat): (cqi: nat)
    ensures cqi == 0 <==> sinr == 0
    ensures cqi == 15 <==> sinr > 19
    ensures cqi == 0 || 4 <= cqi <= 15
    ensures cqi >= 4 ==> CqiLowerBounds[cqi - 4] <= sinr
    ensures 4 <= cqi < 15 ==> sinr < CqiLowerBounds[cqi - 3]
  {
    if 0 < sinr <= 2 then 4
    else if sinr == 3 then 5
    else if 3 < sinr <= 5 then 6
    else if 5 < sinr <= 7 then 7
    else if 7 < sinr <= 9 then 8
    else if sinr == 10 then 9
    else if 10 < sinr <= 12 then 10
    else if 12 < sinr <= 15 then 11
    else if sinr == 16 then 12
    else if 16 < sinr <= 18 then 13
    else if sinr == 19 then 14
    else if sinr > 19 then 15
    else 0
  }

  lemma CqiBoundsIncreasing(i: nat, j: nat)
    requires i <= j < |CqiLowerBounds|
    ensures CqiLowerBounds[i] <= CqiLowerBounds[j]
  {
  }

  /** The CQI is the band of the table the SINR falls in: any c whose band
    * holds the SINR is the reported CQI. */
  lemma CqiIsBand(sinr: nat, c: nat)
    requires 4 <= c <= 15
    requires CqiLowerBounds[c - 4] <= sinr
    requires c < 15 ==> sinr < CqiLowerBounds[c - 3]
    ensures Cqi(sinr) == c
  {
    var q := Cqi(sinr);
    if q < c {
      if q >= 4 {
        CqiBoundsIncreasing(q - 3, c - 4);
      }
    } else if q > c {
      CqiBoundsIncreasing(c - 3, q - 4);
    }
  }

  /** A better SINR never lowers the CQI. */
  lemma CqiMonotone(a: nat, b: nat)
    requires a <= b
    ensures Cqi(a) <= Cqi(b)
  {
    var qa, qb := Cqi(a), Cqi(b);
    if qa > qb && qb >= 4 {
      CqiBoundsIncreasing(qb - 3, qa - 4);
    }
  }
}
