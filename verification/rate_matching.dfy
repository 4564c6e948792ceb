/** LDPC bit interleaving and circular-buffer rate matching
    (TS 38.212 sections 5.4.2.1 and 5.4.2.2), transmit and receive side.
    Bits and soft values are modelled as integers; the receive side adds
    into 16-bit signed soft buffers with two's-complement wrap-around. */
module RateMatching {
  import opened Common
  import opened Arithmetic

  /** Column offsets of the starting position k0 for each redundancy
      version, per base graph (Table 5.4.2.1-2). */
  function IndexK0(bg: nat, rv: nat): (r: nat)
    requires bg == 1 || bg == 2
    requires rv < 4
    ensures bg == 1 ==> r < 66
    ensures bg == 2 ==> r < 50
    ensures rv == 0 ==> r == 0
  {
    if bg == 1 then [0, 17, 33, 56][rv] else [0, 13, 25, 43][rv]
  }

  predicate ValidModOrder(qm: nat) {
    qm == 2 || qm == 4 || qm == 6 || qm == 8
  }

  /* ---------------- Bit interleaving (section 5.4.2.2) ---------------- */

  /** f[i*Qm + j] = e[j*(E/Qm) + i]; positions past (E/Qm)*Qm stay zero
      (the output is cleared first).  Any other Qm stops the program. */
  function Interleave(bigE: nat, qm: nat, e: seq<int>): (r: Outcome<seq<int>>)
    requires |e| >= bigE
    ensures r.Fatal? <==> !ValidModOrder(qm)
    ensures r.Ok? ==> |r.value| == bigE
  {
    if !ValidModOrder(qm) then Fatal
    else
      var rows := bigE / qm;
      DivMulLe(bigE, qm);
      Ok(seq(bigE, k requires 0 <= k < bigE =>
               if k < rows * qm then e[Transposed(k, qm, rows)] else 0))
  }

  lemma InterleavePlacement(bigE: nat, qm: nat, e: seq<int>, i: nat, j: nat)
    requires |e| >= bigE && ValidModOrder(qm)
    requires i < bigE / qm && j < qm
    ensures i * qm + j < bigE
    ensures Interleave(bigE, qm, e).value[i * qm + j] == e[j * (bigE / qm) + i]
  {
    var rows := bigE / qm;
    DivMulLe(bigE, qm);
    TransposedAt(i, j, qm, rows);
  }

  lemma InterleaveTail(bigE: nat, qm: nat, e: seq<int>, k: nat)
    requires |e| >= bigE && ValidModOrder(qm)
    requires (bigE / qm) * qm <= k < bigE
    ensures Interleave(bigE, qm, e).value[k] == 0
  {
  }

  /** Inverse of Interleave on the int16 soft values of the receiver:
      e[j*(E/Qm) + i] = f[i*Qm + j].  Stops the program unless Qm is a
      valid modulation order dividing E. */
  function Deinterleave(bigE: nat, qm: nat, f: seq<int>): (r: Outcome<seq<int>>)
    requires |f| >= bigE
    ensures r.Fatal? <==> !ValidModOrder(qm) || bigE % qm != 0
    ensures r.Ok? ==> |r.value| == bigE
  {
    if !ValidModOrder(qm) || bigE % qm != 0 then Fatal
    else
      var rows := bigE / qm;
      assert qm * rows == bigE;
      if rows == 0 then Ok([])
      else Ok(seq(bigE, k requires 0 <= k < bigE => f[Transposed(k, rows, qm)]))
  }

  lemma DeinterleavePlacement(bigE: nat, qm: nat, f: seq<int>, i: nat, j: nat)
    requires |f| >= bigE && ValidModOrder(qm) && bigE % qm == 0
    requires i < bigE / qm && j < qm
    ensures j * (bigE / qm) + i < bigE
    ensures Deinterleave(bigE, qm, f).value[j * (bigE / qm) + i] == f[i * qm + j]
  {
    var rows := bigE / qm;
    assert qm * rows == bigE && rows > 0;
    var k := j * rows + i;
    assert k < bigE && Transposed(k, rows, qm) == i * qm + j by {
      TransposedAt(j, i, rows, qm);
    }
  }

  /** Deinterleaving undoes interleaving whenever Qm divides E. */
  lemma DeinterleaveInterleave(bigE: nat, qm: nat, e: seq<int>)
    requires |e| == bigE && ValidModOrder(qm) && bigE % qm == 0
    ensures Interleave(bigE, qm, e).Ok?
    ensures Deinterleave(bigE, qm, Interleave(bigE, qm, e).value) == Ok(e)
  {
    var f := Interleave(bigE, qm, e).value;
    var g := Deinterleave(bigE, qm, f).value;
    forall k | 0 <= k < bigE
      ensures g[k] == e[k]
    {
      DeinterleaveInterleaveAt(bigE, qm, e, k);
    }
    assert g == e;
  }

  lemma DeinterleaveInterleaveAt(bigE: nat, qm: nat, e: seq<int>, k: nat)
    requires |e| == bigE && ValidModOrder(qm) && bigE % qm == 0 && k < bigE
    ensures Deinterleave(bigE, qm, Interleave(bigE, qm, e).value).value[k] == e[k]
  {
    var rows := bigE / qm;
    var i, j := k % rows, k / rows;
    assert i < rows && j < qm && k == j * rows + i by {
      assert qm * rows == bigE;
      RowColOf(k, rows, qm);
    }
    DeinterleaveInterleaveCell(bigE, qm, e, i, j, k);
  }

  lemma DeinterleaveInterleaveCell(bigE: nat, qm: nat, e: seq<int>, i: nat, j: nat, k: nat)
    requires |e| == bigE && ValidModOrder(qm) && bigE % qm == 0
    requires i < bigE / qm && j < qm && k == j * (bigE / qm) + i
    ensures k < bigE
    ensures Deinterleave(bigE, qm, Interleave(bigE, qm, e).value).value[k] == e[k]
  {
    var f := Interleave(bigE, qm, e).value;
    DeinterleavePlacement(bigE, qm, f, i, j);
    InterleavePlacement(bigE, qm, e, i, j);
  }

  /** Interleaving undoes deinterleaving whenever Qm divides E. */
  lemma InterleaveDeinterleave(bigE: nat, qm: nat, f: seq<int>)
    requires |f| == bigE && ValidModOrder(qm) && bigE % qm == 0
    ensures Deinterleave(bigE, qm, f).Ok?
    ensures Interleave(bigE, qm, Deinterleave(bigE, qm, f).value) == Ok(f)
  {
    var e := Deinterleave(bigE, qm, f).value;
    var g := Interleave(bigE, qm, e).value;
    forall k | 0 <= k < bigE
      ensures g[k] == f[k]
    {
      InterleaveDeinterleaveAt(bigE, qm, f, k);
    }
    assert g == f;
  }

  lemma InterleaveDeinterleaveAt(bigE: nat, qm: nat, f: seq<int>, k: nat)
    requires |f| == bigE && ValidModOrder(qm) && bigE % qm == 0 && k < bigE
    ensures Interleave(bigE, qm, Deinterleave(bigE, qm, f).value).value[k] == f[k]
  {
    var i, j := k / qm, k % qm;
    assert i < bigE / qm && j < qm && k == i * qm + j by {
      var rows := bigE / qm;
      assert rows * qm == bigE;
      RowColOf(k, qm, rows);
    }
    InterleaveDeinterleaveCell(bigE, qm, f, i, j, k);
  }

  lemma InterleaveDeinterleaveCell(bigE: nat, qm: nat, f: seq<int>, i: nat, j: nat, k: nat)
    requires |f| == bigE && ValidModOrder(qm) && bigE % qm == 0
    requires i < bigE / qm && j < qm && k == i * qm + j
    ensures k < bigE
    ensures Interleave(bigE, qm, Deinterleave(bigE, qm, f).value).value[k] == f[k]
  {
    var e := Deinterleave(bigE, qm, f).value;
    InterleavePlacement(bigE, qm, e, i, j);
    DeinterleavePlacement(bigE, qm, f, i, j);
  }

  /* ---------------- Bit selection (section 5.4.2.1) ---------------- */

  /** Parameters shared by the transmit and receive rate matchers. */
  datatype RmConfig = RmConfig(
    tbslbrm: nat,   // TBS for limited-buffer rate matching, 0 = unlimited
    bg: nat,        // base graph, 1 or 2
    z: nat,         // lifting size Zc
    c: nat,         // number of code blocks
    f: nat,         // number of filler bits
    foffset: nat,   // position of the first filler bit
    rvidx: nat,     // redundancy version
    bigE: nat)      // rate-matched output length E

  /** What the code indexes without checking: the k0 table and a
      positive lifting size. */
  predicate Addressable(cfg: RmConfig) {
    (cfg.bg == 1 || cfg.bg == 2) && cfg.rvidx < 4 && cfg.z > 0
  }

  /** N = 66 Zc for base graph 1, 50 Zc otherwise. */
  function CodedLength(cfg: RmConfig): nat {
    (if cfg.bg == 1 then 66 else 50) * cfg.z
  }

  /** Ncb = N without limited-buffer rate matching, otherwise
      min(N, floor(Tbslbrm / (C * R_LBRM))) with R_LBRM = 2/3. */
  function CircularBufferLength(cfg: RmConfig): (ncb: nat)
    requires cfg.c > 0
    ensures ncb <= CodedLength(cfg)
    ensures cfg.tbslbrm == 0 ==> ncb == CodedLength(cfg)
    ensures cfg.tbslbrm > 0 ==> ncb == Min(CodedLength(cfg), 3 * cfg.tbslbrm / (2 * cfg.c))
  {
    if cfg.tbslbrm == 0 then CodedLength(cfg)
    else Min(CodedLength(cfg), 3 * cfg.tbslbrm / (2 * cfg.c))
  }

  lemma ScaledStartBelow(col: nat, w: nat, z: nat, ncb: nat)
    requires col < w && z > 0 && ncb > 0
    ensures (col * ncb / (w * z)) * z < ncb
  {
    var n := w * z;
    var q := col * ncb / n;
    DivMulLe(col * ncb, n);
    MulMonotone(col, w - 1, ncb);
    assert (q * z) * w == q * n;
    if q * z >= ncb {
      MulMonotone(ncb, q * z, w);
    }
  }

  /** floor(col * ncb / (w * z)) * z, which stays below ncb when col < w. */
  function ScaledStart(col: nat, w: nat, z: nat, ncb: nat): (r: nat)
    requires col < w && z > 0
    ensures ncb > 0 ==> r < ncb
  {
    if ncb == 0 then 0
    else
      ScaledStartBelow(col, w, z, ncb);
      (col * ncb / (w * z)) * z
  }

  /** Starting position k0 = floor(index_k0 * Ncb / N) * Zc. */
  function StartPosition(cfg: RmConfig): (k0: nat)
    requires cfg.c > 0 && Addressable(cfg)
    ensures CircularBufferLength(cfg) > 0 ==> k0 < CircularBufferLength(cfg)
  {
    ScaledStart(IndexK0(cfg.bg, cfg.rvidx), if cfg.bg == 1 then 66 else 50, cfg.z, CircularBufferLength(cfg))
  }

  /** The checks that make both rate matchers return -1 untouched. */
  predicate Rejected(cfg: RmConfig) {
    cfg.c == 0 || cfg.foffset > cfg.bigE || cfg.foffset > CircularBufferLength(cfg)
  }

  /** What the loops rely on when the checks pass: the filler range
      ends inside the circular buffer and leaves at least one coded bit
      to select (without one, the receiver's repetition loop never ends
      and the transmitter reads past Ncb). */
  predicate FillerInside(cfg: RmConfig)
    requires cfg.c > 0
  {
    cfg.foffset + cfg.f <= CircularBufferLength(cfg) && cfg.f < CircularBufferLength(cfg)
  }

  /** Number of selectable (non-filler) positions of the circular buffer. */
  function Selectable(cfg: RmConfig): (m: nat)
    requires cfg.c > 0 && FillerInside(cfg)
    ensures m > 0
  {
    CircularBufferLength(cfg) - cfg.f
  }

  /** Buffer index of the slot-th non-filler position. */
  function SlotIndex(cfg: RmConfig, slot: nat): nat {
    if slot < cfg.foffset then slot else slot + cfg.f
  }

  /** Slot of the starting position; a k0 inside the filler range jumps
      to the first position after it. */
  function StartSlot(cfg: RmConfig): nat
    requires cfg.c > 0 && Addressable(cfg)
  {
    var k0 := StartPosition(cfg);
    if k0 < cfg.foffset then k0
    else if k0 < cfg.foffset + cfg.f then cfg.foffset
    else k0 - cfg.f
  }

  /** Reference definition of bit selection: output bit k comes from the
      (StartSlot + k)-th selectable position, modulo the number of
      selectable positions. */
  function SelectedIndex(cfg: RmConfig, k: nat): nat
    requires cfg.c > 0 && Addressable(cfg) && FillerInside(cfg)
  {
    SlotIndex(cfg, (StartSlot(cfg) + k) % Selectable(cfg))
  }

  /** Every selected index lies in the circular buffer, outside the
      filler range. */
  lemma SelectedIndexValid(cfg: RmConfig, k: nat)
    requires cfg.c > 0 && Addressable(cfg) && FillerInside(cfg)
    ensures SelectedIndex(cfg, k) < CircularBufferLength(cfg)
    ensures !(cfg.foffset <= SelectedIndex(cfg, k) < cfg.foffset + cfg.f)
  {
  }

  /** Repetition: once every selectable bit has been sent, selection
      wraps around and the same bits are sent again in the same order. */
  lemma SelectionPeriodic(cfg: RmConfig, k: nat)
    requires cfg.c > 0 && Addressable(cfg) && FillerInside(cfg)
    ensures SelectedIndex(cfg, k + Selectable(cfg)) == SelectedIndex(cfg, k)
  {
    var m := Selectable(cfg);
    var s := StartSlot(cfg);
    assert (s + k + m) % m == (s + k) % m by { ModAddPeriod(s + k, m); }
  }

  /** Within one pass (at most Ncb - F bits) no position is used twice. */
  lemma SelectionInjective(cfg: RmConfig, k1: nat, k2: nat)
    requires cfg.c > 0 && Addressable(cfg) && FillerInside(cfg)
    requires k1 < k2 < Selectable(cfg)
    ensures SelectedIndex(cfg, k1) != SelectedIndex(cfg, k2)
  {
    var m := Selectable(cfg);
    var s := StartSlot(cfg);
    assert s <= m by {
      var k0 := StartPosition(cfg);
      assert k0 < CircularBufferLength(cfg);
    }
    ModDistinct(s + k1, s + k2, m);
  }

  /** The slot that a loop position `ind` stands for: a position at the
      start of the filler range is the same slot as the first one after
      it. */
  function SlotOfPosition(cfg: RmConfig, ind: nat): int {
    if ind <= cfg.foffset then ind else ind - cfg.f
  }

  /** The same slot with the end of the buffer wrapped to slot 0: the
      selection index of the next bit a loop standing at `ind` emits. */
  function PositionSlot(cfg: RmConfig, ind: nat): int
    requires cfg.c > 0 && FillerInside(cfg)
  {
    if SlotOfPosition(cfg, ind) == Selectable(cfg) then 0 else SlotOfPosition(cfg, ind)
  }

  /** Bits selected so far match the reference selection. */
  predicate SelectedPrefix(cfg: RmConfig, d: seq<int>, e: seq<int>)
    requires cfg.c > 0 && Addressable(cfg) && FillerInside(cfg)
    requires |d| >= CircularBufferLength(cfg)
  {
    forall j :: 0 <= j < |e| ==> SelectedIndex(cfg, j) < |d| && e[j] == d[SelectedIndex(cfg, j)]
  }

  /** Transmit-side rate matching (nr_rate_matching_ldpc): parameter
      checks, the two block copies of the first pass, then the repetition
      loop; the result equals the reference bit selection. */
  method RateMatchTx(cfg: RmConfig, d: seq<int>) returns (status: int, e: seq<int>)
    requires Addressable(cfg)
    requires !Rejected(cfg) ==> FillerInside(cfg) && |d| >= CircularBufferLength(cfg)
    ensures status == -1 || status == 0
    ensures status == -1 <==> Rejected(cfg)
    ensures status == -1 ==> e == []
    ensures status == 0 ==> |e| == cfg.bigE
    ensures status == 0 ==> forall k :: 0 <= k < cfg.bigE ==> e[k] == d[SelectedIndex(cfg, k)]
  {
    if cfg.c == 0 {
      return -1, [];
    }
    var ncb := CircularBufferLength(cfg);
    if cfg.foffset > cfg.bigE || cfg.foffset > ncb {
      return -1, [];
    }
    e := SelectFirstPass(cfg, d);
    e := SelectRepetitions(cfg, d, e);
    return 0, e;
  }

  /** The memcpy part: from k0 (moved past the filler range) up to Ncb,
      skipping the filler bits, or fewer when E bits suffice. */
  method SelectFirstPass(cfg: RmConfig, d: seq<int>) returns (e: seq<int>)
    requires Addressable(cfg) && !Rejected(cfg) && FillerInside(cfg)
    requires |d| >= CircularBufferLength(cfg)
    ensures |e| <= cfg.bigE
    ensures SelectedPrefix(cfg, d, e)
    ensures |e| < cfg.bigE ==> (StartSlot(cfg) + |e|) % Selectable(cfg) == 0
  {
    var ncb := CircularBufferLength(cfg);
    var ind := StartPosition(cfg);
    var bigE, f, foffset := cfg.bigE, cfg.f, cfg.foffset;
    ghost var m := Selectable(cfg);
    ghost var s := StartSlot(cfg);
    if ind >= foffset && ind < f + foffset {
      ind := f + foffset;
    }
    assert s == (if ind < foffset then ind else ind - f);
    if ind < foffset {
      var n2 := if bigE + f <= ncb - ind then bigE - foffset + ind else ncb - (foffset + f);
      e := d[ind..foffset] + d[foffset + f..foffset + f + n2];
      FirstPassBeforeFiller(cfg, d, ind, n2);
    } else {
      var n := if bigE <= ncb - ind then bigE else ncb - ind;
      e := d[ind..ind + n];
      FirstPassAfterFiller(cfg, d, ind, n);
    }
    if |e| < bigE {
      assert s + |e| == m;
      DivModUnique(m, m, 1, 0);
    }
  }

  /** A first pass starting before the filler range: the bits up to it,
      then the bits after it. */
  lemma FirstPassBeforeFiller(cfg: RmConfig, d: seq<int>, ind: nat, n2: nat)
    requires Addressable(cfg) && !Rejected(cfg) && FillerInside(cfg)
    requires |d| >= CircularBufferLength(cfg)
    requires StartSlot(cfg) == ind < cfg.foffset
    requires cfg.foffset + cfg.f + n2 <= CircularBufferLength(cfg)
    ensures SelectedPrefix(cfg, d, d[ind..cfg.foffset] + d[cfg.foffset + cfg.f..cfg.foffset + cfg.f + n2])
  {
    var e := d[ind..cfg.foffset] + d[cfg.foffset + cfg.f..cfg.foffset + cfg.f + n2];
    var m := Selectable(cfg);
    forall j | 0 <= j < |e|
      ensures SelectedIndex(cfg, j) < |d| && e[j] == d[SelectedIndex(cfg, j)]
    {
      ModSmall(ind + j, m);
    }
  }

  /** A first pass starting after the filler range: one block copy. */
  lemma FirstPassAfterFiller(cfg: RmConfig, d: seq<int>, ind: nat, n: nat)
    requires Addressable(cfg) && !Rejected(cfg) && FillerInside(cfg)
    requires |d| >= CircularBufferLength(cfg)
    requires cfg.foffset + cfg.f <= ind && StartSlot(cfg) == ind - cfg.f
    requires ind + n <= CircularBufferLength(cfg)
    ensures SelectedPrefix(cfg, d, d[ind..ind + n])
  {
    var e := d[ind..ind + n];
    var m := Selectable(cfg);
    forall j | 0 <= j < |e|
      ensures SelectedIndex(cfg, j) < |d| && e[j] == d[SelectedIndex(cfg, j)]
    {
      ModSmall(ind - cfg.f + j, m);
    }
  }

  /** The repetition loop: whole passes over [0, Ncb) skipping the filler
      range until E bits have been produced. */
  method SelectRepetitions(cfg: RmConfig, d: seq<int>, e0: seq<int>) returns (e: seq<int>)
    requires Addressable(cfg) && !Rejected(cfg) && FillerInside(cfg)
    requires |d| >= CircularBufferLength(cfg)
    requires |e0| <= cfg.bigE && SelectedPrefix(cfg, d, e0)
    requires |e0| < cfg.bigE ==> (StartSlot(cfg) + |e0|) % Selectable(cfg) == 0
    ensures |e| == cfg.bigE && SelectedPrefix(cfg, d, e)
  {
    var ncb := CircularBufferLength(cfg);
    var bigE, f, foffset := cfg.bigE, cfg.f, cfg.foffset;
    ghost var m := Selectable(cfg);
    ghost var s := StartSlot(cfg);
    e := e0;
    var k := |e0|;
    while k < bigE
      invariant |e| == k <= bigE
      invariant k < bigE ==> (s + k) % m == 0
      invariant SelectedPrefix(cfg, d, e)
      decreases bigE - k
    {
      ghost var kStart := k;
      var ind := 0;
      while ind < ncb && k < bigE
        invariant |e| == k <= bigE
        invariant ind <= foffset || foffset + f <= ind
        invariant ind <= ncb
        invariant k < bigE ==> (s + k) % m == PositionSlot(cfg, ind)
        invariant SelectedPrefix(cfg, d, e)
        invariant k >= kStart && (ind > 0 ==> k > kStart)
        decreases ncb - ind
      {
        if ind == foffset {
          ind := f + foffset;
        }
        if ind < ncb {
          ghost var slot := SlotOfPosition(cfg, ind);
          assert 0 <= slot < m;
          assert SelectedIndex(cfg, k) == ind;
          ModNext(s + k, m);
          e := e + [d[ind]];
          k := k + 1;
          ind := ind + 1;
          assert SlotOfPosition(cfg, ind) == slot + 1;
        }
      }
    }
  }

  /** The positions the code's repetition loop reads in one pass from
      `ind`, at most `budget` of them: at Foffset it jumps to Foffset + F
      and reads there without checking that this is still below Ncb. */
  function RepetitionPassAsWritten(cfg: RmConfig, ind: nat, budget: nat): (positions: seq<nat>)
    requires cfg.c > 0
    ensures |positions| <= budget
    decreases CircularBufferLength(cfg) - ind
  {
    if ind >= CircularBufferLength(cfg) || budget == 0 then []
    else
      var p := if ind == cfg.foffset then cfg.f + cfg.foffset else ind;
      [p] + RepetitionPassAsWritten(cfg, p + 1, budget - 1)
  }

  /** Base graph 2, Zc 1, one code block, no limited buffer, rv 0, F 49,
      Foffset 1, E 3: Ncb is 50 and one bit is selectable. The first pass
      sends d[0]; the repetition pass then reads d[0] and d[50], one past
      the circular buffer, where bit selection sends d[0] again. */
  lemma AsWrittenRepetitionReadsPastBuffer()
    ensures var cfg := RmConfig(0, 2, 1, 1, 49, 1, 0, 3);
      && Addressable(cfg) && !Rejected(cfg) && FillerInside(cfg)
      && CircularBufferLength(cfg) == 50 && Selectable(cfg) == 1
      && RepetitionPassAsWritten(cfg, 0, 2) == [0, 50]
      && SelectedIndex(cfg, 1) == 0 && SelectedIndex(cfg, 2) == 0
  {
    var cfg := RmConfig(0, 2, 1, 1, 49, 1, 0, 3);
    assert StartPosition(cfg) == 0;
    assert RepetitionPassAsWritten(cfg, 51, 0) == [];
    assert RepetitionPassAsWritten(cfg, 1, 1) == [50];
  }

  /* ---------------- Receive side soft combining ---------------- */

  /** 16-bit saturating-free accumulation `d[ind] += soft[k]`. */
  function Add16(a: int, b: int): int {
    Wrap16(a + b)
  }

  /** Receive-side reference: the first n soft values added, in order,
      into their selected positions. */
  function SoftCombine(cfg: RmConfig, d: seq<int>, soft: seq<int>, n: nat): (r: seq<int>)
    requires cfg.c > 0 && Addressable(cfg) && FillerInside(cfg)
    requires |d| >= CircularBufferLength(cfg) && n <= |soft|
    ensures |r| == |d|
    ensures forall q :: 0 <= q < |d| && (q >= CircularBufferLength(cfg) || cfg.foffset <= q < cfg.foffset + cfg.f) ==> r[q] == d[q]
    decreases n
  {
    if n == 0 then d
    else
      var prev := SoftCombine(cfg, d, soft, n - 1);
      var p := SelectedIndex(cfg, n - 1);
      SelectedIndexValid(cfg, n - 1);
      prev[p := Add16(prev[p], soft[n - 1])]
  }

  /** The buffer the receiver starts from: zeroed on [0, Ncb) when
      `clear` is 1, otherwise the previous soft values (HARQ combining). */
  function InitialBuffer(cfg: RmConfig, d: seq<int>, clear: nat): (r: seq<int>)
    requires cfg.c > 0 && |d| >= CircularBufferLength(cfg)
    ensures |r| == |d|
    ensures forall q :: 0 <= q < |d| ==> r[q] == (if clear == 1 && q < CircularBufferLength(cfg) then 0 else d[q])
  {
    var ncb := CircularBufferLength(cfg);
    if clear == 1 then seq(ncb, _ => 0) + d[ncb..] else d
  }

  /** Receive-side rate matching (nr_rate_matching_ldpc_rx): parameter
      checks, optional clearing, the first pass from k0 and the
      repetition passes; the result equals SoftCombine. */
  method RateMatchRx(cfg: RmConfig, d: seq<int>, soft: seq<int>, clear: nat) returns (status: int, out: seq<int>)
    requires Addressable(cfg)
    requires !Rejected(cfg) ==> FillerInside(cfg) && |d| >= CircularBufferLength(cfg) && |soft| >= cfg.bigE
    ensures status == -1 || status == 0
    ensures status == -1 <==> Rejected(cfg)
    ensures status == -1 ==> out == d
    ensures status == 0 ==> out == SoftCombine(cfg, InitialBuffer(cfg, d, clear), soft, cfg.bigE)
  {
    if cfg.c == 0 {
      return -1, d;
    }
    var ncb := CircularBufferLength(cfg);
    if cfg.foffset > cfg.bigE || cfg.foffset > ncb {
      return -1, d;
    }
    out := d;
    if clear == 1 {
      out := seq(ncb, _ => 0) + out[ncb..];
    }
    assert out == InitialBuffer(cfg, d, clear);
    var k;
    out, k := CombineFirstPass(cfg, out, soft);
    out := CombineRepetitions(cfg, InitialBuffer(cfg, d, clear), soft, out, k);
    return 0, out;
  }

  /** The first two loops: from k0 up to the filler range, then from the
      end of the filler range up to Ncb. */
  method CombineFirstPass(cfg: RmConfig, d: seq<int>, soft: seq<int>) returns (out: seq<int>, k: nat)
    requires Addressable(cfg) && !Rejected(cfg) && FillerInside(cfg)
    requires |d| >= CircularBufferLength(cfg) && |soft| >= cfg.bigE
    ensures k <= cfg.bigE
    ensures out == SoftCombine(cfg, d, soft, k)
    ensures k < cfg.bigE ==> (StartSlot(cfg) + k) % Selectable(cfg) == 0
  {
    var ind;
    out, k, ind := CombineToFiller(cfg, d, soft);
    if ind >= cfg.foffset && ind < cfg.foffset + cfg.f {
      ind := cfg.foffset + cfg.f;
    }
    out, k := CombineToEnd(cfg, d, soft, out, k, ind);
  }

  /** The loop from k0 up to the filler range; it does not run when k0
      lies at or beyond the range. */
  method CombineToFiller(cfg: RmConfig, d: seq<int>, soft: seq<int>) returns (out: seq<int>, k: nat, ind: nat)
    requires Addressable(cfg) && !Rejected(cfg) && FillerInside(cfg)
    requires |d| >= CircularBufferLength(cfg) && |soft| >= cfg.bigE
    ensures k <= cfg.bigE && out == SoftCombine(cfg, d, soft, k)
    ensures StartPosition(cfg) >= cfg.foffset ==> k == 0 && ind == StartPosition(cfg)
    ensures StartPosition(cfg) < cfg.foffset ==> ind == StartSlot(cfg) + k && ind <= cfg.foffset
    ensures StartPosition(cfg) < cfg.foffset && k < cfg.bigE ==> ind == cfg.foffset
  {
    var bigE, foffset := cfg.bigE, cfg.foffset;
    ghost var m := Selectable(cfg);
    ghost var s := StartSlot(cfg);
    ind := StartPosition(cfg);
    out := d;
    k := 0;
    if ind < foffset {
      while ind < foffset && k < bigE
        invariant k <= bigE && ind <= foffset
        invariant ind == s + k
        invariant out == SoftCombine(cfg, d, soft, k)
        decreases foffset - ind
      {
        ModSmall(s + k, m);
        assert SelectedIndex(cfg, k) == ind;
        CombineStep(cfg, d, soft, out, k, ind);
        out := out[ind := Add16(out[ind], soft[k])];
        k := k + 1;
        ind := ind + 1;
      }
    }
  }

  /** The loop from past the filler range up to Ncb. */
  method CombineToEnd(cfg: RmConfig, d: seq<int>, soft: seq<int>, out0: seq<int>, k0: nat, ind0: nat)
    returns (out: seq<int>, k: nat)
    requires Addressable(cfg) && !Rejected(cfg) && FillerInside(cfg)
    requires |d| >= CircularBufferLength(cfg) && |soft| >= cfg.bigE
    requires k0 <= cfg.bigE && out0 == SoftCombine(cfg, d, soft, k0)
    requires k0 < cfg.bigE ==> cfg.foffset + cfg.f <= ind0 <= CircularBufferLength(cfg)
    requires k0 < cfg.bigE ==> ind0 - cfg.f == StartSlot(cfg) + k0
    ensures k <= cfg.bigE
    ensures out == SoftCombine(cfg, d, soft, k)
    ensures k < cfg.bigE ==> (StartSlot(cfg) + k) % Selectable(cfg) == 0
  {
    var ncb := CircularBufferLength(cfg);
    var bigE, f, foffset := cfg.bigE, cfg.f, cfg.foffset;
    ghost var m := Selectable(cfg);
    ghost var s := StartSlot(cfg);
    out, k := out0, k0;
    var ind := ind0;
    while ind < ncb && k < bigE
      invariant k <= bigE
      invariant k < bigE ==> foffset + f <= ind <= ncb
      invariant k < bigE ==> ind - f == s + k
      invariant out == SoftCombine(cfg, d, soft, k)
      decreases ncb - ind
    {
      ModSmall(s + k, m);
      assert SelectedIndex(cfg, k) == ind;
      CombineStep(cfg, d, soft, out, k, ind);
      out := out[ind := Add16(out[ind], soft[k])];
      k := k + 1;
      ind := ind + 1;
    }
    if k < bigE {
      assert s + k == m;
      DivModUnique(m, m, 1, 0);
    }
  }

  /** The repetition loop: whole passes until all E soft values have
      been added. */
  method CombineRepetitions(cfg: RmConfig, d: seq<int>, soft: seq<int>, out0: seq<int>, k0: nat) returns (out: seq<int>)
    requires Addressable(cfg) && !Rejected(cfg) && FillerInside(cfg)
    requires |d| >= CircularBufferLength(cfg) && |soft| >= cfg.bigE
    requires k0 <= cfg.bigE && out0 == SoftCombine(cfg, d, soft, k0)
    requires k0 < cfg.bigE ==> (StartSlot(cfg) + k0) % Selectable(cfg) == 0
    ensures out == SoftCombine(cfg, d, soft, cfg.bigE)
  {
    out := out0;
    var k := k0;
    while k < cfg.bigE
      invariant k <= cfg.bigE
      invariant k < cfg.bigE ==> (StartSlot(cfg) + k) % Selectable(cfg) == 0
      invariant out == SoftCombine(cfg, d, soft, k)
      decreases cfg.bigE - k
    {
      out, k := CombinePass(cfg, d, soft, out, k);
    }
  }

  /** One repetition pass: [0, Foffset) then [Foffset + F, Ncb), each
      stopping early once E soft values have been added. */
  method CombinePass(cfg: RmConfig, d: seq<int>, soft: seq<int>, out0: seq<int>, k0: nat) returns (out: seq<int>, k: nat)
    requires Addressable(cfg) && !Rejected(cfg) && FillerInside(cfg)
    requires |d| >= CircularBufferLength(cfg) && |soft| >= cfg.bigE
    requires k0 < cfg.bigE && out0 == SoftCombine(cfg, d, soft, k0)
    requires (StartSlot(cfg) + k0) % Selectable(cfg) == 0
    ensures k0 < k <= cfg.bigE
    ensures out == SoftCombine(cfg, d, soft, k)
    ensures k < cfg.bigE ==> (StartSlot(cfg) + k) % Selectable(cfg) == 0
  {
    var k1;
    out, k1 := CombineBeforeFiller(cfg, d, soft, out0, k0);
    out, k := CombineAfterFiller(cfg, d, soft, out, k1);
    if k < cfg.bigE {
      assert k - k0 == Selectable(cfg);
    }
  }

  method CombineBeforeFiller(cfg: RmConfig, d: seq<int>, soft: seq<int>, out0: seq<int>, k0: nat) returns (out: seq<int>, k: nat)
    requires Addressable(cfg) && !Rejected(cfg) && FillerInside(cfg)
    requires |d| >= CircularBufferLength(cfg) && |soft| >= cfg.bigE
    requires k0 < cfg.bigE && out0 == SoftCombine(cfg, d, soft, k0)
    requires (StartSlot(cfg) + k0) % Selectable(cfg) == 0
    ensures k0 <= k <= cfg.bigE
    ensures out == SoftCombine(cfg, d, soft, k)
    ensures k < cfg.bigE ==> k - k0 == cfg.foffset && (StartSlot(cfg) + k) % Selectable(cfg) == PositionSlot(cfg, cfg.foffset)
  {
    var bigE, foffset := cfg.bigE, cfg.foffset;
    out := out0;
    k := k0;
    var ind := 0;
    ghost var m := Selectable(cfg);
    ghost var s := StartSlot(cfg);
    assert PositionSlot(cfg, 0) == 0;
    while ind < foffset && k < bigE
      invariant k <= bigE && ind <= foffset
      invariant ind == k - k0
      invariant out == SoftCombine(cfg, d, soft, k)
      invariant k < bigE ==> (s + k) % m == PositionSlot(cfg, ind)
      decreases foffset - ind
    {
      SlotStep(cfg, k, ind);
      CombineStep(cfg, d, soft, out, k, ind);
      out := out[ind := Add16(out[ind], soft[k])];
      k := k + 1;
      ind := ind + 1;
    }
  }

  method CombineAfterFiller(cfg: RmConfig, d: seq<int>, soft: seq<int>, out0: seq<int>, k0: nat) returns (out: seq<int>, k: nat)
    requires Addressable(cfg) && !Rejected(cfg) && FillerInside(cfg)
    requires |d| >= CircularBufferLength(cfg) && |soft| >= cfg.bigE
    requires k0 <= cfg.bigE && out0 == SoftCombine(cfg, d, soft, k0)
    requires k0 < cfg.bigE ==> (StartSlot(cfg) + k0) % Selectable(cfg) == PositionSlot(cfg, cfg.foffset)
    ensures k0 <= k <= cfg.bigE
    ensures k0 < cfg.bigE && cfg.foffset + cfg.f < CircularBufferLength(cfg) ==> k0 < k
    ensures out == SoftCombine(cfg, d, soft, k)
    ensures k < cfg.bigE ==> k - k0 == Selectable(cfg) - cfg.foffset && (StartSlot(cfg) + k) % Selectable(cfg) == 0
  {
    var ncb := CircularBufferLength(cfg);
    var bigE, f, foffset := cfg.bigE, cfg.f, cfg.foffset;
    out := out0;
    k := k0;
    var ind := foffset + f;
    ghost var m := Selectable(cfg);
    ghost var s := StartSlot(cfg);
    assert PositionSlot(cfg, ind) == PositionSlot(cfg, foffset);
    while ind < ncb && k < bigE
      invariant k0 <= k <= bigE && foffset + f <= ind <= ncb
      invariant ind - (foffset + f) == k - k0
      invariant out == SoftCombine(cfg, d, soft, k)
      invariant k < bigE ==> (s + k) % m == PositionSlot(cfg, ind)
      decreases ncb - ind
    {
      SlotStep(cfg, k, ind);
      CombineStep(cfg, d, soft, out, k, ind);
      out := out[ind := Add16(out[ind], soft[k])];
      k := k + 1;
      ind := ind + 1;
    }
    if k < bigE {
      assert ind == ncb && PositionSlot(cfg, ncb) == 0;
      assert (s + k) % m == 0;
      assert k - k0 == m - foffset;
    }
  }

  /** Output bit k sits at position ind when its slot is the slot of ind,
      and bit k + 1 then has the next slot, wrapping at the end of the
      buffer. */
  lemma SlotStep(cfg: RmConfig, k: nat, ind: nat)
    requires cfg.c > 0 && Addressable(cfg) && FillerInside(cfg)
    requires ind < CircularBufferLength(cfg) && !(cfg.foffset <= ind < cfg.foffset + cfg.f)
    requires (StartSlot(cfg) + k) % Selectable(cfg) == PositionSlot(cfg, ind)
    ensures SelectedIndex(cfg, k) == ind
    ensures (StartSlot(cfg) + k + 1) % Selectable(cfg) == PositionSlot(cfg, ind + 1)
  {
    ModNext(StartSlot(cfg) + k, Selectable(cfg));
  }

  /** Adding the next soft value at its selected position extends the
      reference by one. */
  lemma CombineStep(cfg: RmConfig, d: seq<int>, soft: seq<int>, out: seq<int>, k: nat, ind: nat)
    requires cfg.c > 0 && Addressable(cfg) && FillerInside(cfg)
    requires |d| >= CircularBufferLength(cfg) && k < |soft|
    requires out == SoftCombine(cfg, d, soft, k) && SelectedIndex(cfg, k) == ind
    ensures ind < |out|
    ensures out[ind := Add16(out[ind], soft[k])] == SoftCombine(cfg, d, soft, k + 1)
  {
    SelectedIndexValid(cfg, k);
  }

  /** Without repetition (E at most Ncb - F) each selected position
      receives exactly one soft value added to what the buffer held. */
  lemma {:induction false} SoftCombineSinglePass(cfg: RmConfig, d: seq<int>, soft: seq<int>, n: nat, k: nat)
    requires cfg.c > 0 && Addressable(cfg) && FillerInside(cfg)
    requires |d| >= CircularBufferLength(cfg) && n <= |soft| && n <= Selectable(cfg)
    requires k < n
    ensures SelectedIndex(cfg, k) < |d|
    ensures SoftCombine(cfg, d, soft, n)[SelectedIndex(cfg, k)] == Add16(d[SelectedIndex(cfg, k)], soft[k])
    decreases n
  {
    SelectedIndexValid(cfg, k);
    var p := SelectedIndex(cfg, k);
    if k == n - 1 {
      forall j | 0 <= j < k
        ensures SelectedIndex(cfg, j) != p
      {
        SelectionInjective(cfg, j, k);
      }
      UntouchedBefore(cfg, d, soft, k, p);
    } else {
      SoftCombineSinglePass(cfg, d, soft, n - 1, k);
      SelectionInjective(cfg, k, n - 1);
    }
  }

  /** A position none of the first n selections hits keeps its value. */
  lemma {:induction false} UntouchedBefore(cfg: RmConfig, d: seq<int>, soft: seq<int>, n: nat, p: nat)
    requires cfg.c > 0 && Addressable(cfg) && FillerInside(cfg)
    requires |d| >= CircularBufferLength(cfg) && n <= |soft| && p < |d|
    requires forall j :: 0 <= j < n ==> SelectedIndex(cfg, j) != p
    ensures SoftCombine(cfg, d, soft, n)[p] == d[p]
    decreases n
  {
    if n > 0 {
      UntouchedBefore(cfg, d, soft, n - 1, p);
    }
  }
}
