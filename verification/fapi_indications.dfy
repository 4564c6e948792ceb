/** Equality, deep copy and size accounting of the FAPI UCI.indication,
    SRS.indication and RACH.indication messages.

    UCI PDUs come in three kinds (PUSCH, PUCCH formats 0/1, PUCCH formats
    2/3/4); each carries a bitmap whose bits say which reports it holds:
    bit 0 SR, bit 1 HARQ, bit 2 CSI part 1, bit 3 CSI part 2. A report that
    is bit-packed carries `bitLen/8 + 1` payload bytes. As in the DL and UL
    TTI models, the C union of PDU bodies is a record of all of them and a
    copy sets the bodies and reports that are not selected to fixed empty
    values, standing for the zero-filled memory of a fresh allocation. */
module FapiIndications {
  import opened Common
  import FapiDataMessages

  // ---------------------------------------------------------------
  // UCI.indication: data model
  // ---------------------------------------------------------------

  const UciPuschType := 0
  const UciFormat01Type := 1
  const UciFormat234Type := 2

  const SrBit := 0
  const HarqBit := 1
  const CsiPart1Bit := 2
  const CsiPart2Bit := 3

  predicate KnownUciType(t: int) {
    t == UciPuschType || t == UciFormat01Type || t == UciFormat234Type
  }

  /** Bytes of a bit-packed payload of `bitLen` bits: one more than
      `bitLen/8`, which covers every bit. */
  function PayloadBytes(bitLen: nat): (n: nat)
    ensures 8 * n > bitLen && 8 * n <= bitLen + 8
  {
    bitLen / 8 + 1
  }

  /** A bit-packed report (SR of formats 2/3/4, HARQ of PUSCH and of
      formats 2/3/4, CSI part 1 and part 2): its CRC flag in `fields` (none
      for SR), the bit length and the payload bytes. */
  datatype BitReport = BitReport(fields: seq<int>, bitLen: nat, payload: seq<int>)

  /** HARQ of formats 0/1: the number of values, the confidence level and
      the values. */
  datatype Harq01 = Harq01(numHarq: nat, confidenceLevel: int, values: seq<int>)

  /** `fields` holds handle, RNTI, (PUCCH format,) UL CQI, timing advance
      and RSSI; `sr` of formats 0/1 holds indication and confidence. */
  datatype UciPusch =
    UciPusch(pduBitmap: nat, fields: seq<int>, harq: BitReport, csiPart1: BitReport, csiPart2: BitReport)

  datatype UciPucch01 = UciPucch01(pduBitmap: nat, fields: seq<int>, sr: seq<int>, harq: Harq01)

  datatype UciPucch234 =
    UciPucch234(pduBitmap: nat, fields: seq<int>, sr: BitReport, harq: BitReport,
                csiPart1: BitReport, csiPart2: BitReport)

  datatype Uci = Uci(pduType: int, pduSize: int, pusch: UciPusch, pucch01: UciPucch01, pucch234: UciPucch234)

  datatype UciIndication =
    UciIndication(messageId: int, messageLength: int, sfn: int, slot: int, numUcis: nat, ucis: seq<Uci>)

  const NoReport := BitReport([], 0, [])
  const NoHarq01 := Harq01(0, 0, [])
  const NoPusch := UciPusch(0, [], NoReport, NoReport, NoReport)
  const NoPucch01 := UciPucch01(0, [], [], NoHarq01)
  const NoPucch234 := UciPucch234(0, [], NoReport, NoReport, NoReport, NoReport)

  predicate ReportShaped(r: BitReport) {
    PayloadBytes(r.bitLen) <= |r.payload|
  }

  predicate Harq01Shaped(h: Harq01) {
    h.numHarq <= |h.values|
  }

  /** Only the reports the bitmap selects are ever read. */
  predicate PuschShaped(p: UciPusch) {
    (BitSet(p.pduBitmap, HarqBit) ==> ReportShaped(p.harq))
    && (BitSet(p.pduBitmap, CsiPart1Bit) ==> ReportShaped(p.csiPart1))
    && (BitSet(p.pduBitmap, CsiPart2Bit) ==> ReportShaped(p.csiPart2))
  }

  predicate Pucch01Shaped(p: UciPucch01) {
    BitSet(p.pduBitmap, HarqBit) ==> Harq01Shaped(p.harq)
  }

  predicate Pucch234Shaped(p: UciPucch234) {
    (BitSet(p.pduBitmap, SrBit) ==> ReportShaped(p.sr))
    && (BitSet(p.pduBitmap, HarqBit) ==> ReportShaped(p.harq))
    && (BitSet(p.pduBitmap, CsiPart1Bit) ==> ReportShaped(p.csiPart1))
    && (BitSet(p.pduBitmap, CsiPart2Bit) ==> ReportShaped(p.csiPart2))
  }

  predicate UciShaped(u: Uci) {
    (u.pduType == UciPuschType ==> PuschShaped(u.pusch))
    && (u.pduType == UciFormat01Type ==> Pucch01Shaped(u.pucch01))
    && (u.pduType == UciFormat234Type ==> Pucch234Shaped(u.pucch234))
  }

  predicate AllShaped(us: seq<Uci>) {
    forall i :: 0 <= i < |us| ==> UciShaped(us[i])
  }

  predicate UciIndicationShaped(r: UciIndication) {
    r.numUcis <= |r.ucis| && AllShaped(r.ucis[..r.numUcis])
  }

  predicate AllUciTypesKnown(r: UciIndication)
    requires r.numUcis <= |r.ucis|
  {
    forall i :: 0 <= i < r.numUcis ==> KnownUciType(r.ucis[i].pduType)
  }

  // ---------------------------------------------------------------
  // UCI.indication: equality
  // ---------------------------------------------------------------

  predicate ReportEq(a: BitReport, b: BitReport)
    requires ReportShaped(a) && ReportShaped(b)
  {
    a.fields == b.fields && a.bitLen == b.bitLen
    && a.payload[..PayloadBytes(a.bitLen)] == b.payload[..PayloadBytes(a.bitLen)]
  }

  predicate Harq01Eq(a: Harq01, b: Harq01)
    requires Harq01Shaped(a) && Harq01Shaped(b)
  {
    a.numHarq == b.numHarq && a.confidenceLevel == b.confidenceLevel
    && a.values[..a.numHarq] == b.values[..a.numHarq]
  }

  /** `eq_uci_indication_PUSCH`: bit 0 is not used. */
  predicate PuschEq(a: UciPusch, b: UciPusch)
    requires PuschShaped(a) && PuschShaped(b)
  {
    a.pduBitmap == b.pduBitmap && a.fields == b.fields
    && (BitSet(a.pduBitmap, HarqBit) ==> ReportEq(a.harq, b.harq))
    && (BitSet(a.pduBitmap, CsiPart1Bit) ==> ReportEq(a.csiPart1, b.csiPart1))
    && (BitSet(a.pduBitmap, CsiPart2Bit) ==> ReportEq(a.csiPart2, b.csiPart2))
  }

  predicate Pucch01Eq(a: UciPucch01, b: UciPucch01)
    requires Pucch01Shaped(a) && Pucch01Shaped(b)
  {
    a.pduBitmap == b.pduBitmap && a.fields == b.fields
    && (BitSet(a.pduBitmap, SrBit) ==> a.sr == b.sr)
    && (BitSet(a.pduBitmap, HarqBit) ==> Harq01Eq(a.harq, b.harq))
  }

  predicate Pucch234Eq(a: UciPucch234, b: UciPucch234)
    requires Pucch234Shaped(a) && Pucch234Shaped(b)
  {
    a.pduBitmap == b.pduBitmap && a.fields == b.fields
    && (BitSet(a.pduBitmap, SrBit) ==> ReportEq(a.sr, b.sr))
    && (BitSet(a.pduBitmap, HarqBit) ==> ReportEq(a.harq, b.harq))
    && (BitSet(a.pduBitmap, CsiPart1Bit) ==> ReportEq(a.csiPart1, b.csiPart1))
    && (BitSet(a.pduBitmap, CsiPart2Bit) ==> ReportEq(a.csiPart2, b.csiPart2))
  }

  /** `eq_uci_indication_UCI`: a mismatch of type or size answers false;
      with matching headers an unknown type stops the program. */
  function EqUci(a: Uci, b: Uci): (r: Outcome<bool>)
    requires UciShaped(a) && UciShaped(b)
    ensures r == Fatal <==> a.pduType == b.pduType && a.pduSize == b.pduSize && !KnownUciType(a.pduType)
    ensures r == Ok(true) ==> a.pduType == b.pduType && a.pduSize == b.pduSize
  {
    if a.pduType != b.pduType || a.pduSize != b.pduSize then Ok(false)
    else if a.pduType == UciPuschType then Ok(PuschEq(a.pusch, b.pusch))
    else if a.pduType == UciFormat01Type then Ok(Pucch01Eq(a.pucch01, b.pucch01))
    else if a.pduType == UciFormat234Type then Ok(Pucch234Eq(a.pucch234, b.pucch234))
    else Fatal
  }

  /** The loop of `eq_uci_indication`: pairs are compared in order and the
      first one that is not equal ends the scan. */
  function ScanUcis(xs: seq<Uci>, ys: seq<Uci>): (r: Outcome<bool>)
    requires |xs| == |ys| && AllShaped(xs) && AllShaped(ys)
    decreases |xs|
  {
    if |xs| == 0 then Ok(true)
    else
      match EqUci(xs[0], ys[0])
      case Fatal => Fatal
      case Ok(same) => if !same then Ok(false) else ScanUcis(xs[1..], ys[1..])
  }

  /** `eq_uci_indication`. */
  function EqUciIndication(a: UciIndication, b: UciIndication): Outcome<bool>
    requires UciIndicationShaped(a) && UciIndicationShaped(b)
  {
    if a.messageId != b.messageId || a.messageLength != b.messageLength || a.sfn != b.sfn
       || a.slot != b.slot || a.numUcis != b.numUcis
    then Ok(false)
    else ScanUcis(a.ucis[..a.numUcis], b.ucis[..a.numUcis])
  }

  /** Pair k has an unknown type and every pair before it is equal. */
  predicate FatalAfterEqual(xs: seq<Uci>, ys: seq<Uci>, k: nat)
    requires |xs| == |ys| && AllShaped(xs) && AllShaped(ys)
  {
    k < |xs| && EqUci(xs[k], ys[k]) == Fatal
    && forall j :: 0 <= j < k ==> EqUci(xs[j], ys[j]) == Ok(true)
  }

  /** The scan stops the program exactly when some pair has an unknown
      type after a run of equal pairs: a mismatch earlier in the list
      answers false before the unknown type is reached. */
  lemma ScanFatalIff(xs: seq<Uci>, ys: seq<Uci>)
    requires |xs| == |ys| && AllShaped(xs) && AllShaped(ys)
    ensures ScanUcis(xs, ys) == Fatal <==> exists k: nat :: FatalAfterEqual(xs, ys, k)
  {
    if ScanUcis(xs, ys) == Fatal {
      var k := ScanFatalWitness(xs, ys);
    }
    if exists k: nat :: FatalAfterEqual(xs, ys, k) {
      var k: nat :| FatalAfterEqual(xs, ys, k);
      ScanFatalAt(xs, ys, k);
    }
  }

  /** A scan that stops the program names the pair it stopped at. */
  lemma {:induction false} ScanFatalWitness(xs: seq<Uci>, ys: seq<Uci>) returns (k: nat)
    requires |xs| == |ys| && AllShaped(xs) && AllShaped(ys)
    requires ScanUcis(xs, ys) == Fatal
    ensures FatalAfterEqual(xs, ys, k)
    decreases |xs|
  {
    if EqUci(xs[0], ys[0]) == Fatal {
      k := 0;
    } else {
      var xt, yt := xs[1..], ys[1..];
      var k1 := ScanFatalWitness(xt, yt);
      k := k1 + 1;
      assert xs[k] == xt[k1] && ys[k] == yt[k1];
      forall j | 0 <= j < k
        ensures EqUci(xs[j], ys[j]) == Ok(true)
      {
        if j > 0 {
          assert xs[j] == xt[j - 1] && ys[j] == yt[j - 1];
        }
      }
    }
  }

  /** An unknown type after a run of equal pairs stops the scan. */
  lemma {:induction false} ScanFatalAt(xs: seq<Uci>, ys: seq<Uci>, k: nat)
    requires |xs| == |ys| && AllShaped(xs) && AllShaped(ys)
    requires FatalAfterEqual(xs, ys, k)
    ensures ScanUcis(xs, ys) == Fatal
    decreases k
  {
    if k > 0 {
      var xt, yt := xs[1..], ys[1..];
      assert EqUci(xs[0], ys[0]) == Ok(true);
      assert xt[k - 1] == xs[k] && yt[k - 1] == ys[k];
      forall j | 0 <= j < k - 1
        ensures EqUci(xt[j], yt[j]) == Ok(true)
      {
        assert xt[j] == xs[j + 1] && yt[j] == ys[j + 1];
      }
      ScanFatalAt(xt, yt, k - 1);
    }
  }

  /** The scan answers true exactly when every pair is equal. */
  lemma {:induction false} ScanTrueIff(xs: seq<Uci>, ys: seq<Uci>)
    requires |xs| == |ys| && AllShaped(xs) && AllShaped(ys)
    ensures ScanUcis(xs, ys) == Ok(true) <==> forall j :: 0 <= j < |xs| ==> EqUci(xs[j], ys[j]) == Ok(true)
    decreases |xs|
  {
    if |xs| > 0 {
      ScanTrueIff(xs[1..], ys[1..]);
      if forall j :: 0 <= j < |xs| ==> EqUci(xs[j], ys[j]) == Ok(true) {
        forall j | 0 <= j < |xs| - 1
          ensures EqUci(xs[1..][j], ys[1..][j]) == Ok(true)
        {
          assert EqUci(xs[j + 1], ys[j + 1]) == Ok(true);
        }
      }
      if ScanUcis(xs, ys) == Ok(true) {
        forall j | 0 <= j < |xs|
          ensures EqUci(xs[j], ys[j]) == Ok(true)
        {
          if j > 0 {
            assert EqUci(xs[1..][j - 1], ys[1..][j - 1]) == Ok(true);
          }
        }
      }
    }
  }

  // ---------------------------------------------------------------
  // UCI.indication: copy
  // ---------------------------------------------------------------

  /** Copy of a bit-packed report: `bitLen/8 + 1` payload bytes are
      allocated and copied. */
  function CopyReport(s: BitReport): (d: BitReport)
    requires ReportShaped(s)
    ensures ReportShaped(d) && |d.payload| == PayloadBytes(s.bitLen)
  {
    BitReport(s.fields, s.bitLen, s.payload[..PayloadBytes(s.bitLen)])
  }

  function CopyHarq01(s: Harq01): (d: Harq01)
    requires Harq01Shaped(s)
    ensures Harq01Shaped(d) && |d.values| == s.numHarq
  {
    Harq01(s.numHarq, s.confidenceLevel, s.values[..s.numHarq])
  }

  /** `copy_uci_indication_PUSCH`: only the reports the bitmap selects. */
  function CopyPusch(s: UciPusch): (d: UciPusch)
    requires PuschShaped(s)
    ensures PuschShaped(d) && d.pduBitmap == s.pduBitmap
  {
    UciPusch(s.pduBitmap, s.fields,
             if BitSet(s.pduBitmap, HarqBit) then CopyReport(s.harq) else NoReport,
             if BitSet(s.pduBitmap, CsiPart1Bit) then CopyReport(s.csiPart1) else NoReport,
             if BitSet(s.pduBitmap, CsiPart2Bit) then CopyReport(s.csiPart2) else NoReport)
  }

  function CopyPucch01(s: UciPucch01): (d: UciPucch01)
    requires Pucch01Shaped(s)
    ensures Pucch01Shaped(d) && d.pduBitmap == s.pduBitmap
  {
    UciPucch01(s.pduBitmap, s.fields,
               if BitSet(s.pduBitmap, SrBit) then s.sr else [],
               if BitSet(s.pduBitmap, HarqBit) then CopyHarq01(s.harq) else NoHarq01)
  }

  function CopyPucch234(s: UciPucch234): (d: UciPucch234)
    requires Pucch234Shaped(s)
    ensures Pucch234Shaped(d) && d.pduBitmap == s.pduBitmap
  {
    UciPucch234(s.pduBitmap, s.fields,
                if BitSet(s.pduBitmap, SrBit) then CopyReport(s.sr) else NoReport,
                if BitSet(s.pduBitmap, HarqBit) then CopyReport(s.harq) else NoReport,
                if BitSet(s.pduBitmap, CsiPart1Bit) then CopyReport(s.csiPart1) else NoReport,
                if BitSet(s.pduBitmap, CsiPart2Bit) then CopyReport(s.csiPart2) else NoReport)
  }

  /** `copy_uci_indication_UCI`: an unknown type stops the program. */
  function CopyUci(s: Uci): (r: Outcome<Uci>)
    requires UciShaped(s)
    ensures r.Ok? <==> KnownUciType(s.pduType)
    ensures r.Ok? ==> UciShaped(r.value) && r.value.pduType == s.pduType && r.value.pduSize == s.pduSize
  {
    if s.pduType == UciPuschType then Ok(Uci(s.pduType, s.pduSize, CopyPusch(s.pusch), NoPucch01, NoPucch234))
    else if s.pduType == UciFormat01Type then Ok(Uci(s.pduType, s.pduSize, NoPusch, CopyPucch01(s.pucch01), NoPucch234))
    else if s.pduType == UciFormat234Type then Ok(Uci(s.pduType, s.pduSize, NoPusch, NoPucch01, CopyPucch234(s.pucch234)))
    else Fatal
  }

  /** `copy_uci_indication`. */
  function CopyUciIndication(s: UciIndication): (r: Outcome<UciIndication>)
    requires UciIndicationShaped(s)
    ensures r.Ok? <==> AllUciTypesKnown(s)
    ensures r.Ok? ==> UciIndicationShaped(r.value) && |r.value.ucis| == s.numUcis
  {
    if !AllUciTypesKnown(s) then Fatal
    else
      Ok(UciIndication(s.messageId, s.messageLength, s.sfn, s.slot, s.numUcis,
                       seq(s.numUcis, i requires 0 <= i < s.numUcis => CopyUci(s.ucis[i]).value)))
  }

  // ---------------------------------------------------------------
  // UCI.indication: equality compares exactly what copy keeps
  // ---------------------------------------------------------------

  lemma ReportEqIffCopiesEqual(a: BitReport, b: BitReport)
    requires ReportShaped(a) && ReportShaped(b)
    ensures ReportEq(a, b) <==> CopyReport(a) == CopyReport(b)
  {
  }

  lemma PuschEqIffCopiesEqual(a: UciPusch, b: UciPusch)
    requires PuschShaped(a) && PuschShaped(b)
    ensures PuschEq(a, b) <==> CopyPusch(a) == CopyPusch(b)
  {
    if CopyPusch(a) == CopyPusch(b) {
      if BitSet(a.pduBitmap, HarqBit) { ReportEqIffCopiesEqual(a.harq, b.harq); }
      if BitSet(a.pduBitmap, CsiPart1Bit) { ReportEqIffCopiesEqual(a.csiPart1, b.csiPart1); }
      if BitSet(a.pduBitmap, CsiPart2Bit) { ReportEqIffCopiesEqual(a.csiPart2, b.csiPart2); }
    }
  }

  lemma Pucch01EqIffCopiesEqual(a: UciPucch01, b: UciPucch01)
    requires Pucch01Shaped(a) && Pucch01Shaped(b)
    ensures Pucch01Eq(a, b) <==> CopyPucch01(a) == CopyPucch01(b)
  {
  }

  lemma Pucch234EqIffCopiesEqual(a: UciPucch234, b: UciPucch234)
    requires Pucch234Shaped(a) && Pucch234Shaped(b)
    ensures Pucch234Eq(a, b) <==> CopyPucch234(a) == CopyPucch234(b)
  {
    if CopyPucch234(a) == CopyPucch234(b) {
      if BitSet(a.pduBitmap, SrBit) { ReportEqIffCopiesEqual(a.sr, b.sr); }
      if BitSet(a.pduBitmap, HarqBit) { ReportEqIffCopiesEqual(a.harq, b.harq); }
      if BitSet(a.pduBitmap, CsiPart1Bit) { ReportEqIffCopiesEqual(a.csiPart1, b.csiPart1); }
      if BitSet(a.pduBitmap, CsiPart2Bit) { ReportEqIffCopiesEqual(a.csiPart2, b.csiPart2); }
    }
  }

  /** For a PDU of known type the comparison never stops the program and
      answers true exactly when the two copies coincide. */
  lemma UciEqIffCopiesEqual(a: Uci, b: Uci)
    requires UciShaped(a) && UciShaped(b) && KnownUciType(a.pduType)
    ensures EqUci(a, b).Ok?
    ensures EqUci(a, b).value <==> CopyUci(a) == CopyUci(b)
  {
    if a.pduType == b.pduType && a.pduSize == b.pduSize {
      if a.pduType == UciPuschType {
        PuschEqIffCopiesEqual(a.pusch, b.pusch);
      } else if a.pduType == UciFormat01Type {
        Pucch01EqIffCopiesEqual(a.pucch01, b.pucch01);
      } else {
        Pucch234EqIffCopiesEqual(a.pucch234, b.pucch234);
      }
    }
  }

  /** For a message whose PDU types are all known the comparison never
      stops the program, and it answers true exactly when the copies of
      the two messages coincide (the copy of `b` stops the program when
      one of its types is unknown, and then they differ). */
  lemma UciIndicationEqIffCopiesEqual(a: UciIndication, b: UciIndication)
    requires UciIndicationShaped(a) && UciIndicationShaped(b) && AllUciTypesKnown(a)
    ensures EqUciIndication(a, b).Ok?
    ensures EqUciIndication(a, b).value <==> CopyUciIndication(a) == CopyUciIndication(b)
  {
    var ca, cb := CopyUciIndication(a), CopyUciIndication(b);
    if a.messageId == b.messageId && a.messageLength == b.messageLength && a.sfn == b.sfn
       && a.slot == b.slot && a.numUcis == b.numUcis
    {
      var n := a.numUcis;
      var xs, ys := a.ucis[..n], b.ucis[..n];
      forall j | 0 <= j < n
        ensures EqUci(xs[j], ys[j]).Ok?
        ensures EqUci(xs[j], ys[j]).value <==> CopyUci(xs[j]) == CopyUci(ys[j])
      {
        UciEqIffCopiesEqual(xs[j], ys[j]);
      }
      ScanFatalIff(xs, ys);
      ScanTrueIff(xs, ys);
      if EqUciIndication(a, b) == Ok(true) {
        forall j | 0 <= j < n
          ensures KnownUciType(b.ucis[j].pduType) && CopyUci(a.ucis[j]) == CopyUci(b.ucis[j])
        {
          assert EqUci(xs[j], ys[j]) == Ok(true);
        }
        assert ca.value.ucis == cb.value.ucis;
      }
      if ca == cb {
        forall j | 0 <= j < n
          ensures EqUci(xs[j], ys[j]) == Ok(true)
        {
          assert ca.value.ucis[j] == cb.value.ucis[j];
        }
      }
    }
  }

  lemma CopyUciIdempotent(s: Uci)
    requires UciShaped(s) && KnownUciType(s.pduType)
    ensures CopyUci(CopyUci(s).value) == CopyUci(s)
  {
    var c := CopyUci(s).value;
    if s.pduType == UciPuschType {
      var p := c.pusch;
      if BitSet(p.pduBitmap, HarqBit) { assert p.harq.payload[..PayloadBytes(p.harq.bitLen)] == p.harq.payload; }
      if BitSet(p.pduBitmap, CsiPart1Bit) { assert p.csiPart1.payload[..PayloadBytes(p.csiPart1.bitLen)] == p.csiPart1.payload; }
      if BitSet(p.pduBitmap, CsiPart2Bit) { assert p.csiPart2.payload[..PayloadBytes(p.csiPart2.bitLen)] == p.csiPart2.payload; }
    } else if s.pduType == UciFormat01Type {
      var p := c.pucch01;
      if BitSet(p.pduBitmap, HarqBit) { assert p.harq.values[..p.harq.numHarq] == p.harq.values; }
    } else {
      var p := c.pucch234;
      if BitSet(p.pduBitmap, SrBit) { assert p.sr.payload[..PayloadBytes(p.sr.bitLen)] == p.sr.payload; }
      if BitSet(p.pduBitmap, HarqBit) { assert p.harq.payload[..PayloadBytes(p.harq.bitLen)] == p.harq.payload; }
      if BitSet(p.pduBitmap, CsiPart1Bit) { assert p.csiPart1.payload[..PayloadBytes(p.csiPart1.bitLen)] == p.csiPart1.payload; }
      if BitSet(p.pduBitmap, CsiPart2Bit) { assert p.csiPart2.payload[..PayloadBytes(p.csiPart2.bitLen)] == p.csiPart2.payload; }
    }
  }

  lemma CopyUciIndicationIdempotent(s: UciIndication)
    requires UciIndicationShaped(s) && AllUciTypesKnown(s)
    ensures CopyUciIndication(CopyUciIndication(s).value) == CopyUciIndication(s)
  {
    var c := CopyUciIndication(s).value;
    forall i | 0 <= i < c.numUcis
      ensures CopyUci(c.ucis[i]).value == c.ucis[i]
    {
      CopyUciIdempotent(s.ucis[i]);
    }
    assert c.ucis[..c.numUcis] == c.ucis;
    assert CopyUciIndication(c).value.ucis == c.ucis;
  }

  /** A copy of a message with known types compares equal to it. */
  lemma UciIndicationCopyThenEq(s: UciIndication)
    requires UciIndicationShaped(s) && AllUciTypesKnown(s)
    ensures CopyUciIndication(s).Ok?
    ensures EqUciIndication(s, CopyUciIndication(s).value) == Ok(true)
  {
    CopyUciIndicationIdempotent(s);
    UciIndicationEqIffCopiesEqual(s, CopyUciIndication(s).value);
  }

  /** Comparing a message with an unknown PDU type to itself stops the
      program, and so does copying it. */
  lemma UciIndicationUnknownTypeFatal(s: UciIndication)
    requires UciIndicationShaped(s) && !AllUciTypesKnown(s)
    ensures EqUciIndication(s, s) == Fatal
    ensures CopyUciIndication(s) == Fatal
  {
    var n := s.numUcis;
    var us := s.ucis[..n];
    var k :| 0 <= k < n && !KnownUciType(s.ucis[k].pduType);
    while exists j :: 0 <= j < k && !KnownUciType(s.ucis[j].pduType)
      invariant 0 <= k < n && !KnownUciType(s.ucis[k].pduType)
      decreases k
    {
      var earlier :| 0 <= earlier < k && !KnownUciType(s.ucis[earlier].pduType);
      k := earlier;
    }
    forall j | 0 <= j < k
      ensures EqUci(us[j], us[j]) == Ok(true)
    {
      UciEqIffCopiesEqual(us[j], us[j]);
    }
    assert EqUci(us[k], us[k]) == Fatal;
    ScanFatalAt(us, us, k);
  }

  // ---------------------------------------------------------------
  // UCI.indication: size
  // ---------------------------------------------------------------

  /** Byte sizes of the members `get_uci_indication_size` adds up. */
  datatype UciSizes = UciSizes(header: nat, sfn: nat, slot: nat, numUcis: nat, pduType: nat, pduSize: nat,
                               pusch: nat, pucch01: nat, pucch234: nat, listEntry: nat)

  function GatedBytes(bitmap: nat, bit: nat, r: BitReport): nat {
    if BitSet(bitmap, bit) then PayloadBytes(r.bitLen) else 0
  }

  /** Bytes one UCI PDU of known type adds: its type and size members, its
      body, and the payloads its bitmap selects (none for formats 0/1). */
  function UciEntrySize(z: UciSizes, u: Uci): nat
    requires KnownUciType(u.pduType)
  {
    z.pduType + z.pduSize +
    if u.pduType == UciPuschType then
      var p := u.pusch;
      z.pusch + GatedBytes(p.pduBitmap, HarqBit, p.harq) + GatedBytes(p.pduBitmap, CsiPart1Bit, p.csiPart1)
      + GatedBytes(p.pduBitmap, CsiPart2Bit, p.csiPart2)
    else if u.pduType == UciFormat01Type then z.pucch01
    else
      var p := u.pucch234;
      z.pucch234 + GatedBytes(p.pduBitmap, SrBit, p.sr) + GatedBytes(p.pduBitmap, HarqBit, p.harq)
      + GatedBytes(p.pduBitmap, CsiPart1Bit, p.csiPart1) + GatedBytes(p.pduBitmap, CsiPart2Bit, p.csiPart2)
  }

  function UciEntriesSize(z: UciSizes, us: seq<Uci>): nat
    requires forall i :: 0 <= i < |us| ==> KnownUciType(us[i].pduType)
  {
    if |us| == 0 then 0 else UciEntriesSize(z, us[..|us| - 1]) + UciEntrySize(z, us[|us| - 1])
  }

  lemma UciEntriesSizeNext(z: UciSizes, us: seq<Uci>, i: nat)
    requires i < |us| && forall j :: 0 <= j <= i ==> KnownUciType(us[j].pduType)
    ensures UciEntriesSize(z, us[..i + 1]) == UciEntriesSize(z, us[..i]) + UciEntrySize(z, us[i])
  {
    assert us[..i + 1][..i] == us[..i];
  }

  /** `get_uci_indication_size`: an unknown PDU type stops the program. */
  function UciIndicationSize(z: UciSizes, r: UciIndication): (s: Outcome<nat>)
    requires r.numUcis <= |r.ucis|
    ensures s.Ok? <==> AllUciTypesKnown(r)
  {
    if !AllUciTypesKnown(r) then Fatal
    else Ok(z.header + z.sfn + z.slot + z.numUcis + UciEntriesSize(z, r.ucis[..r.numUcis]) + r.numUcis * z.listEntry)
  }

  /** Payload bytes held by a PDU, over every report of every body. */
  function HeldBytes(u: Uci): nat {
    |u.pusch.harq.payload| + |u.pusch.csiPart1.payload| + |u.pusch.csiPart2.payload|
    + |u.pucch234.sr.payload| + |u.pucch234.harq.payload| + |u.pucch234.csiPart1.payload|
    + |u.pucch234.csiPart2.payload|
  }

  function BodySize(z: UciSizes, t: int): nat {
    if t == UciPuschType then z.pusch else if t == UciFormat01Type then z.pucch01 else z.pucch234
  }

  /** The payload bytes counted for a PDU are exactly those its copy
      allocates. */
  lemma UciEntrySizeMatchesCopy(z: UciSizes, u: Uci)
    requires UciShaped(u) && KnownUciType(u.pduType)
    ensures UciEntrySize(z, u) == z.pduType + z.pduSize + BodySize(z, u.pduType) + HeldBytes(CopyUci(u).value)
  {
  }

  /** Copying preserves the size. */
  lemma {:induction false} UciEntriesSizeOfCopies(z: UciSizes, us: seq<Uci>, cs: seq<Uci>)
    requires |us| == |cs| && AllShaped(us)
    requires forall i :: 0 <= i < |us| ==> KnownUciType(us[i].pduType) && CopyUci(us[i]) == Ok(cs[i])
    ensures forall i :: 0 <= i < |cs| ==> KnownUciType(cs[i].pduType)
    ensures UciEntriesSize(z, cs) == UciEntriesSize(z, us)
    decreases |us|
  {
    if |us| > 0 {
      var n := |us|;
      var ufront, cfront := us[..n - 1], cs[..n - 1];
      assert forall i :: 0 <= i < n - 1 ==> ufront[i] == us[i] && cfront[i] == cs[i];
      UciEntriesSizeOfCopies(z, ufront, cfront);
      UciEntrySizeOfCopy(z, us[n - 1], cs[n - 1]);
    }
  }

  lemma UciEntrySizeOfCopy(z: UciSizes, u: Uci, c: Uci)
    requires UciShaped(u) && KnownUciType(u.pduType) && CopyUci(u) == Ok(c)
    ensures KnownUciType(c.pduType) && UciEntrySize(z, c) == UciEntrySize(z, u)
  {
  }

  lemma UciIndicationSizeOfCopy(z: UciSizes, s: UciIndication)
    requires UciIndicationShaped(s) && AllUciTypesKnown(s)
    ensures CopyUciIndication(s).Ok?
    ensures UciIndicationSize(z, CopyUciIndication(s).value) == UciIndicationSize(z, s)
  {
    var c := CopyUciIndication(s).value;
    assert c.ucis[..c.numUcis] == c.ucis;
    UciEntriesSizeOfCopies(z, s.ucis[..s.numUcis], c.ucis);
  }

  /** `get_uci_indication_size`, with the loop of the source. */
  method GetUciIndicationSize(z: UciSizes, r: UciIndication) returns (s: Outcome<nat>)
    requires r.numUcis <= |r.ucis|
    ensures s == UciIndicationSize(z, r)
  {
    var total := z.header + z.sfn + z.slot + z.numUcis;
    var i := 0;
    while i < r.numUcis
      invariant 0 <= i <= r.numUcis
      invariant forall j :: 0 <= j < i ==> KnownUciType(r.ucis[j].pduType)
      invariant total == z.header + z.sfn + z.slot + z.numUcis + UciEntriesSize(z, r.ucis[..i])
    {
      var entry := GetUciEntrySize(z, r.ucis[i]);
      if entry.Fatal? {
        return Fatal;
      }
      UciEntriesSizeNext(z, r.ucis, i);
      total := total + entry.value;
      i := i + 1;
    }
    assert r.ucis[..r.numUcis] == r.ucis[..i];
    s := Ok(total + r.numUcis * z.listEntry);
  }

  /** The loop body of `get_uci_indication_size`: the type and size
      members, the body, and one byte more than bitLen/8 per present
      report. */
  method GetUciEntrySize(z: UciSizes, u: Uci) returns (o: Outcome<nat>)
    ensures o.Ok? <==> KnownUciType(u.pduType)
    ensures o.Ok? ==> o.value == UciEntrySize(z, u)
  {
    var total := z.pduType + z.pduSize;
    if u.pduType == UciPuschType {
      total := total + z.pusch;
      if BitSet(u.pusch.pduBitmap, HarqBit) { total := total + u.pusch.harq.bitLen / 8 + 1; }
      if BitSet(u.pusch.pduBitmap, CsiPart1Bit) { total := total + u.pusch.csiPart1.bitLen / 8 + 1; }
      if BitSet(u.pusch.pduBitmap, CsiPart2Bit) { total := total + u.pusch.csiPart2.bitLen / 8 + 1; }
    } else if u.pduType == UciFormat01Type {
      total := total + z.pucch01;
    } else if u.pduType == UciFormat234Type {
      total := total + z.pucch234;
      if BitSet(u.pucch234.pduBitmap, SrBit) { total := total + u.pucch234.sr.bitLen / 8 + 1; }
      if BitSet(u.pucch234.pduBitmap, HarqBit) { total := total + u.pucch234.harq.bitLen / 8 + 1; }
      if BitSet(u.pucch234.pduBitmap, CsiPart1Bit) { total := total + u.pucch234.csiPart1.bitLen / 8 + 1; }
      if BitSet(u.pucch234.pduBitmap, CsiPart2Bit) { total := total + u.pucch234.csiPart2.bitLen / 8 + 1; }
    } else {
      return Fatal;
    }
    o := Ok(total);
  }

  // ---------------------------------------------------------------
  // SRS.indication
  // ---------------------------------------------------------------

  /** The report TLV: tag, length in bytes, and 32-bit value words. */
  datatype ReportTlv = ReportTlv(tag: int, length: nat, value: seq<int>)

  /** `fields` holds handle, RNTI, timing advance offset (and in ns), SRS
      usage and report type. */
  datatype SrsIndicationPdu = SrsIndicationPdu(fields: seq<int>, report: ReportTlv)

  datatype SrsIndication =
    SrsIndication(messageId: int, messageLength: int, sfn: int, slot: int, controlLength: int,
                  numberOfPdus: nat, pdus: seq<SrsIndicationPdu>)

  predicate ReportTlvShaped(t: ReportTlv) {
    FapiDataMessages.ValueWords(t.length) <= |t.value|
  }

  predicate SrsIndicationShaped(r: SrsIndication) {
    r.numberOfPdus <= |r.pdus| && forall i :: 0 <= i < r.numberOfPdus ==> ReportTlvShaped(r.pdus[i].report)
  }

  /** `eq_srs_indication_report_tlv`: the `(length+3)/4` words holding the
      report are compared. */
  predicate ReportTlvEq(a: ReportTlv, b: ReportTlv)
    requires ReportTlvShaped(a) && ReportTlvShaped(b)
  {
    var w := FapiDataMessages.ValueWords(a.length);
    a.tag == b.tag && a.length == b.length && a.value[..w] == b.value[..w]
  }

  predicate EqSrsIndication(a: SrsIndication, b: SrsIndication)
    requires SrsIndicationShaped(a) && SrsIndicationShaped(b)
  {
    a.messageId == b.messageId && a.messageLength == b.messageLength && a.sfn == b.sfn
    && a.slot == b.slot && a.controlLength == b.controlLength && a.numberOfPdus == b.numberOfPdus
    && forall i :: 0 <= i < a.numberOfPdus ==>
         a.pdus[i].fields == b.pdus[i].fields && ReportTlvEq(a.pdus[i].report, b.pdus[i].report)
  }

  function CopyReportTlv(s: ReportTlv): (d: ReportTlv)
    requires ReportTlvShaped(s)
    ensures ReportTlvShaped(d) && |d.value| == FapiDataMessages.ValueWords(s.length)
  {
    ReportTlv(s.tag, s.length, s.value[..FapiDataMessages.ValueWords(s.length)])
  }

  /** `copy_srs_indication`. */
  function CopySrsIndication(s: SrsIndication): (d: SrsIndication)
    requires SrsIndicationShaped(s)
    ensures SrsIndicationShaped(d) && |d.pdus| == s.numberOfPdus
  {
    SrsIndication(s.messageId, s.messageLength, s.sfn, s.slot, s.controlLength, s.numberOfPdus,
                  seq(s.numberOfPdus, i requires 0 <= i < s.numberOfPdus =>
                    SrsIndicationPdu(s.pdus[i].fields, CopyReportTlv(s.pdus[i].report))))
  }

  lemma SrsIndicationEqIffCopiesEqual(a: SrsIndication, b: SrsIndication)
    requires SrsIndicationShaped(a) && SrsIndicationShaped(b)
    ensures EqSrsIndication(a, b) <==> CopySrsIndication(a) == CopySrsIndication(b)
  {
    var ca, cb := CopySrsIndication(a), CopySrsIndication(b);
    if EqSrsIndication(a, b) {
      assert ca.pdus == cb.pdus;
    }
    if ca == cb {
      forall i | 0 <= i < a.numberOfPdus
        ensures a.pdus[i].fields == b.pdus[i].fields && ReportTlvEq(a.pdus[i].report, b.pdus[i].report)
      {
        assert ca.pdus[i] == cb.pdus[i];
      }
    }
  }

  lemma SrsIndicationCopyThenEq(s: SrsIndication)
    requires SrsIndicationShaped(s)
    ensures EqSrsIndication(s, CopySrsIndication(s))
  {
    var c := CopySrsIndication(s);
    forall i | 0 <= i < s.numberOfPdus
      ensures CopyReportTlv(c.pdus[i].report) == c.pdus[i].report
    {
    }
    assert CopySrsIndication(c).pdus == c.pdus;
    SrsIndicationEqIffCopiesEqual(s, c);
  }

  /** Byte sizes of the header members and of one PDU list entry. */
  datatype SrsSizes = SrsSizes(header: nat, sfn: nat, slot: nat, controlLength: nat, numberOfPdus: nat, pduEntry: nat)

  /** `get_srs_indication_size`: the report lives inside the PDU entry, so
      only the number of PDUs matters. */
  function SrsIndicationSize(z: SrsSizes, r: SrsIndication): nat {
    z.header + z.sfn + z.slot + z.controlLength + z.numberOfPdus + r.numberOfPdus * z.pduEntry
  }

  /** The size ignores the PDUs' contents, grows by one entry per PDU, and
      is kept by a copy. */
  lemma SrsIndicationSizeProperties(z: SrsSizes, a: SrsIndication, b: SrsIndication)
    requires SrsIndicationShaped(a)
    ensures a.numberOfPdus == b.numberOfPdus ==> SrsIndicationSize(z, a) == SrsIndicationSize(z, b)
    ensures b.numberOfPdus == a.numberOfPdus + 1 ==> SrsIndicationSize(z, b) == SrsIndicationSize(z, a) + z.pduEntry
    ensures SrsIndicationSize(z, CopySrsIndication(a)) == SrsIndicationSize(z, a)
  {
  }

  // ---------------------------------------------------------------
  // RACH.indication
  // ---------------------------------------------------------------

  datatype Preamble = Preamble(preambleIndex: int, timingAdvance: int, preamblePwr: int)

  /** `fields` holds physical cell id, symbol, slot and frequency index,
      average RSSI and average SNR. */
  datatype PrachPdu = PrachPdu(fields: seq<int>, numPreamble: nat, preambles: seq<Preamble>)

  datatype RachIndication =
    RachIndication(messageId: int, messageLength: int, sfn: int, slot: int, numberOfPdus: nat, pdus: seq<PrachPdu>)

  predicate RachIndicationShaped(r: RachIndication) {
    r.numberOfPdus <= |r.pdus| && forall i :: 0 <= i < r.numberOfPdus ==> r.pdus[i].numPreamble <= |r.pdus[i].preambles|
  }

  predicate PrachPduEq(a: PrachPdu, b: PrachPdu)
    requires a.numPreamble <= |a.preambles| && b.numPreamble <= |b.preambles|
  {
    a.fields == b.fields && a.numPreamble == b.numPreamble
    && a.preambles[..a.numPreamble] == b.preambles[..a.numPreamble]
  }

  predicate EqRachIndication(a: RachIndication, b: RachIndication)
    requires RachIndicationShaped(a) && RachIndicationShaped(b)
  {
    a.messageId == b.messageId && a.messageLength == b.messageLength && a.sfn == b.sfn
    && a.slot == b.slot && a.numberOfPdus == b.numberOfPdus
    && forall i :: 0 <= i < a.numberOfPdus ==> PrachPduEq(a.pdus[i], b.pdus[i])
  }

  function CopyPrachPdu(s: PrachPdu): (d: PrachPdu)
    requires s.numPreamble <= |s.preambles|
    ensures |d.preambles| == d.numPreamble == s.numPreamble
  {
    PrachPdu(s.fields, s.numPreamble, s.preambles[..s.numPreamble])
  }

  /** `copy_rach_indication`. */
  function CopyRachIndication(s: RachIndication): (d: RachIndication)
    requires RachIndicationShaped(s)
    ensures RachIndicationShaped(d) && |d.pdus| == s.numberOfPdus
  {
    RachIndication(s.messageId, s.messageLength, s.sfn, s.slot, s.numberOfPdus,
                   seq(s.numberOfPdus, i requires 0 <= i < s.numberOfPdus => CopyPrachPdu(s.pdus[i])))
  }

  lemma RachIndicationEqIffCopiesEqual(a: RachIndication, b: RachIndication)
    requires RachIndicationShaped(a) && RachIndicationShaped(b)
    ensures EqRachIndication(a, b) <==> CopyRachIndication(a) == CopyRachIndication(b)
  {
    var ca, cb := CopyRachIndication(a), CopyRachIndication(b);
    if EqRachIndication(a, b) {
      assert ca.pdus == cb.pdus;
    }
    if ca == cb {
      forall i | 0 <= i < a.numberOfPdus
        ensures PrachPduEq(a.pdus[i], b.pdus[i])
      {
        assert ca.pdus[i] == cb.pdus[i];
      }
    }
  }

  lemma RachIndicationCopyThenEq(s: RachIndication)
    requires RachIndicationShaped(s)
    ensures EqRachIndication(s, CopyRachIndication(s))
  {
    var c := CopyRachIndication(s);
    forall i | 0 <= i < s.numberOfPdus
      ensures CopyPrachPdu(c.pdus[i]) == c.pdus[i]
    {
    }
    assert CopyRachIndication(c).pdus == c.pdus;
    RachIndicationEqIffCopiesEqual(s, c);
  }

  /** Byte sizes of the header members and of one PDU list entry. */
  datatype RachSizes = RachSizes(header: nat, sfn: nat, slot: nat, numberOfPdus: nat, pduEntry: nat)

  /** `get_rach_indication_size`: the preambles live inside the PDU entry. */
  function RachIndicationSize(z: RachSizes, r: RachIndication): nat {
    z.header + z.sfn + z.slot + z.numberOfPdus + r.numberOfPdus * z.pduEntry
  }

  lemma RachIndicationSizeProperties(z: RachSizes, a: RachIndication, b: RachIndication)
    requires RachIndicationShaped(a)
    ensures a.numberOfPdus == b.numberOfPdus ==> RachIndicationSize(z, a) == RachIndicationSize(z, b)
    ensures b.numberOfPdus == a.numberOfPdus + 1 ==> RachIndicationSize(z, b) == RachIndicationSize(z, a) + z.pduEntry
    ensures RachIndicationSize(z, CopyRachIndication(a)) == RachIndicationSize(z, a)
  {
  }
}
