/** Structural equality and deep copy of the FAPI UL_TTI.request message.

    The representation follows the DL_TTI module: scalars gathered into
    `fields`, counted lists with separate count and storage, and one body
    of each PDU kind of which `pduType` selects one. The PUSCH PDU keeps
    its four optional sections, each present only when its bit of
    `pduBitMap` is set. */
module FapiUlTti {
  import opened Common

  const PrachPduType := 0
  const PuschPduType := 1
  const PucchPduType := 2
  const SrsPduType := 3

  predicate KnownUlPduType(t: int) {
    PrachPduType <= t <= SrsPduType
  }

  /** Bits of the PUSCH `pdu_bit_map`. */
  const PuschDataBit := 0
  const PuschUciBit := 1
  const PuschPtrsBit := 2
  const DftsOfdmBit := 3

  // ---------------------------------------------------------------
  // UL beamforming
  // ---------------------------------------------------------------

  /** `prgs[p]` holds the beam indices of PRG `p`. */
  datatype UlBeamforming =
    UlBeamforming(trpScheme: int, numPrgs: nat, prgSize: int, digBfInterface: nat, prgs: seq<seq<int>>)

  predicate UlBeamformingShaped(b: UlBeamforming) {
    b.numPrgs <= |b.prgs| && forall p :: 0 <= p < b.numPrgs ==> b.digBfInterface <= |b.prgs[p]|
  }

  predicate UlBeamformingEq(a: UlBeamforming, b: UlBeamforming)
    requires UlBeamformingShaped(a) && UlBeamformingShaped(b)
  {
    a.trpScheme == b.trpScheme && a.numPrgs == b.numPrgs && a.prgSize == b.prgSize
    && a.digBfInterface == b.digBfInterface
    && forall p :: 0 <= p < a.numPrgs ==> a.prgs[p][..a.digBfInterface] == b.prgs[p][..a.digBfInterface]
  }

  function CopyUlBeamforming(s: UlBeamforming): (d: UlBeamforming)
    requires UlBeamformingShaped(s)
    ensures UlBeamformingShaped(d) && |d.prgs| == d.numPrgs
  {
    UlBeamforming(s.trpScheme, s.numPrgs, s.prgSize, s.digBfInterface,
                  seq(s.numPrgs, p requires 0 <= p < s.numPrgs => s.prgs[p][..s.digBfInterface]))
  }

  const EmptyUlBeamforming := UlBeamforming(0, 0, 0, 0, [])

  lemma UlBeamformingEqIffCopiesEqual(a: UlBeamforming, b: UlBeamforming)
    requires UlBeamformingShaped(a) && UlBeamformingShaped(b)
    ensures UlBeamformingEq(a, b) <==> CopyUlBeamforming(a) == CopyUlBeamforming(b)
  {
    var ca, cb := CopyUlBeamforming(a), CopyUlBeamforming(b);
    if UlBeamformingEq(a, b) {
      assert ca.prgs == cb.prgs;
    }
    if ca == cb {
      forall p | 0 <= p < a.numPrgs
        ensures a.prgs[p][..a.digBfInterface] == b.prgs[p][..a.digBfInterface]
      {
        assert ca.prgs[p] == cb.prgs[p];
      }
    }
  }

  lemma CopyUlBeamformingIdempotent(s: UlBeamforming)
    requires UlBeamformingShaped(s)
    ensures CopyUlBeamforming(CopyUlBeamforming(s)) == CopyUlBeamforming(s)
  {
    var c := CopyUlBeamforming(s);
    forall p | 0 <= p < c.numPrgs
      ensures c.prgs[p][..c.digBfInterface] == c.prgs[p]
    {
    }
    assert CopyUlBeamforming(c).prgs == c.prgs;
  }

  // ---------------------------------------------------------------
  // PRACH and PUCCH PDUs: scalars and one beamforming block
  // ---------------------------------------------------------------

  datatype PlainUlPdu = PlainUlPdu(fields: seq<int>, beamforming: UlBeamforming)

  predicate PlainUlShaped(p: PlainUlPdu) {
    UlBeamformingShaped(p.beamforming)
  }

  predicate PlainUlEq(a: PlainUlPdu, b: PlainUlPdu)
    requires PlainUlShaped(a) && PlainUlShaped(b)
  {
    a.fields == b.fields && UlBeamformingEq(a.beamforming, b.beamforming)
  }

  function CopyPlainUl(s: PlainUlPdu): (d: PlainUlPdu)
    requires PlainUlShaped(s)
    ensures PlainUlShaped(d)
  {
    PlainUlPdu(s.fields, CopyUlBeamforming(s.beamforming))
  }

  const EmptyPlainUl := PlainUlPdu([], EmptyUlBeamforming)

  lemma PlainUlEqIffCopiesEqual(a: PlainUlPdu, b: PlainUlPdu)
    requires PlainUlShaped(a) && PlainUlShaped(b)
    ensures PlainUlEq(a, b) <==> CopyPlainUl(a) == CopyPlainUl(b)
  {
    UlBeamformingEqIffCopiesEqual(a.beamforming, b.beamforming);
  }

  // ---------------------------------------------------------------
  // PUSCH PDU
  // ---------------------------------------------------------------

  /** Bytes of `cb_present_and_position` that a PUSCH data section uses. */
  function CbPresenceBytes(numCb: nat): (n: nat)
    ensures 8 * n >= numCb && 8 * n < numCb + 8
  {
    (numCb + 7) / 8
  }

  /** The data section: redundancy version, HARQ id, NDI and TB size in
      `fields`, then the code-block presence bitmap. */
  datatype PuschData = PuschData(fields: seq<int>, numCb: nat, cbPresentAndPosition: seq<int>)

  datatype PtrsSection = PtrsSection(numPtrsPorts: nat, ports: seq<seq<int>>, fields: seq<int>)

  datatype PuschPdu = PuschPdu(pduBitMap: nat, fields: seq<int>, data: PuschData, uci: seq<int>,
                               ptrs: PtrsSection, dftsOfdm: seq<int>, beamforming: UlBeamforming)

  predicate PuschShaped(p: PuschPdu) {
    (BitSet(p.pduBitMap, PuschDataBit) ==> CbPresenceBytes(p.data.numCb) <= |p.data.cbPresentAndPosition|)
    && (BitSet(p.pduBitMap, PuschPtrsBit) ==> p.ptrs.numPtrsPorts <= |p.ptrs.ports|)
    && UlBeamformingShaped(p.beamforming)
  }

  predicate PuschDataEq(a: PuschData, b: PuschData)
    requires CbPresenceBytes(a.numCb) <= |a.cbPresentAndPosition|
    requires CbPresenceBytes(b.numCb) <= |b.cbPresentAndPosition|
  {
    a.fields == b.fields && a.numCb == b.numCb
    && a.cbPresentAndPosition[..CbPresenceBytes(a.numCb)] == b.cbPresentAndPosition[..CbPresenceBytes(a.numCb)]
  }

  predicate PtrsEq(a: PtrsSection, b: PtrsSection)
    requires a.numPtrsPorts <= |a.ports| && b.numPtrsPorts <= |b.ports|
  {
    a.numPtrsPorts == b.numPtrsPorts && a.ports[..a.numPtrsPorts] == b.ports[..a.numPtrsPorts]
    && a.fields == b.fields
  }

  /** `eq_ul_tti_request_pusch_pdu`: each optional section is compared only
      when its bit is set in the first PDU's bitmap (the bitmaps are
      compared first). */
  predicate PuschEq(a: PuschPdu, b: PuschPdu)
    requires PuschShaped(a) && PuschShaped(b)
  {
    a.pduBitMap == b.pduBitMap && a.fields == b.fields
    && (BitSet(a.pduBitMap, PuschDataBit) ==> PuschDataEq(a.data, b.data))
    && (BitSet(a.pduBitMap, PuschUciBit) ==> a.uci == b.uci)
    && (BitSet(a.pduBitMap, PuschPtrsBit) ==> PtrsEq(a.ptrs, b.ptrs))
    && (BitSet(a.pduBitMap, DftsOfdmBit) ==> a.dftsOfdm == b.dftsOfdm)
    && UlBeamformingEq(a.beamforming, b.beamforming)
  }

  const EmptyPuschData := PuschData([], 0, [])
  const EmptyPtrs := PtrsSection(0, [], [])

  /** `copy_ul_tti_request_pusch_pdu`: sections whose bit is clear are left
      as in a zeroed destination. */
  function CopyPusch(s: PuschPdu): (d: PuschPdu)
    requires PuschShaped(s)
    ensures PuschShaped(d) && d.pduBitMap == s.pduBitMap
  {
    var bm := s.pduBitMap;
    PuschPdu(bm, s.fields,
             if BitSet(bm, PuschDataBit)
             then PuschData(s.data.fields, s.data.numCb, s.data.cbPresentAndPosition[..CbPresenceBytes(s.data.numCb)])
             else EmptyPuschData,
             if BitSet(bm, PuschUciBit) then s.uci else [],
             if BitSet(bm, PuschPtrsBit)
             then PtrsSection(s.ptrs.numPtrsPorts, s.ptrs.ports[..s.ptrs.numPtrsPorts], s.ptrs.fields)
             else EmptyPtrs,
             if BitSet(bm, DftsOfdmBit) then s.dftsOfdm else [],
             CopyUlBeamforming(s.beamforming))
  }

  lemma PuschEqIffCopiesEqual(a: PuschPdu, b: PuschPdu)
    requires PuschShaped(a) && PuschShaped(b)
    ensures PuschEq(a, b) <==> CopyPusch(a) == CopyPusch(b)
  {
    UlBeamformingEqIffCopiesEqual(a.beamforming, b.beamforming);
  }

  lemma CopyPuschIdempotent(s: PuschPdu)
    requires PuschShaped(s)
    ensures CopyPusch(CopyPusch(s)) == CopyPusch(s)
  {
    CopyUlBeamformingIdempotent(s.beamforming);
  }

  /** A section whose bit is clear takes no part in the comparison: the
      two PDUs may carry anything there. */
  lemma PuschClearedSectionsIgnored(a: PuschPdu, b: PuschPdu, data: PuschData, uci: seq<int>,
                                    ptrs: PtrsSection, dfts: seq<int>)
    requires PuschShaped(a) && PuschShaped(b)
    ensures !BitSet(a.pduBitMap, PuschDataBit) ==>
              (PuschEq(a, b) <==> PuschEq(a.(data := data), b))
    ensures !BitSet(a.pduBitMap, PuschUciBit) ==>
              (PuschEq(a, b) <==> PuschEq(a.(uci := uci), b))
    ensures !BitSet(a.pduBitMap, PuschPtrsBit) ==>
              (PuschEq(a, b) <==> PuschEq(a.(ptrs := ptrs), b))
    ensures !BitSet(a.pduBitMap, DftsOfdmBit) ==>
              (PuschEq(a, b) <==> PuschEq(a.(dftsOfdm := dfts), b))
  {
  }

  /** A section whose bit is set is compared: a difference there is seen. */
  lemma PuschSetDataSectionCompared(a: PuschPdu, b: PuschPdu)
    requires PuschShaped(a) && PuschShaped(b)
    requires BitSet(a.pduBitMap, PuschDataBit) && a.data.numCb != b.data.numCb
    ensures !PuschEq(a, b)
  {
  }

  // ---------------------------------------------------------------
  // SRS PDU
  // ---------------------------------------------------------------

  /** The per-symbol entries compared: `1 << num_symbols`, passed on as an
      8-bit count. */
  function SrsSymbolCount(numSymbols: nat): (n: nat)
    ensures n < 256
  {
    Pow2(numSymbols) % 256
  }

  /** SRS v4 parameters: `symbols` are the per-symbol triples, `reportType`
      has one entry per set bit of `usage`, `ulPorts` has
      `numUlSpatialStreamsPorts` entries. */
  datatype SrsParameters = SrsParameters(bandwidthSize: int, symbols: seq<seq<int>>, usage: nat,
                                         reportType: seq<int>, fields: seq<int>,
                                         numUlSpatialStreamsPorts: nat, ulPorts: seq<int>)

  datatype SrsPdu = SrsPdu(fields: seq<int>, numSymbols: nat, beamforming: UlBeamforming,
                           params: SrsParameters)

  predicate SrsShaped(p: SrsPdu) {
    SrsSymbolCount(p.numSymbols) <= |p.params.symbols|
    && Popcount(p.params.usage) <= |p.params.reportType|
    && p.params.numUlSpatialStreamsPorts <= |p.params.ulPorts|
    && UlBeamformingShaped(p.beamforming)
  }

  predicate SrsEq(a: SrsPdu, b: SrsPdu)
    requires SrsShaped(a) && SrsShaped(b)
  {
    var n := SrsSymbolCount(a.numSymbols);
    var u := Popcount(a.params.usage);
    a.fields == b.fields && a.numSymbols == b.numSymbols
    && UlBeamformingEq(a.beamforming, b.beamforming)
    && a.params.bandwidthSize == b.params.bandwidthSize
    && a.params.symbols[..n] == b.params.symbols[..n]
    && a.params.usage == b.params.usage
    && a.params.reportType[..u] == b.params.reportType[..u]
    && a.params.fields == b.params.fields
    && a.params.numUlSpatialStreamsPorts == b.params.numUlSpatialStreamsPorts
    && a.params.ulPorts[..a.params.numUlSpatialStreamsPorts] == b.params.ulPorts[..a.params.numUlSpatialStreamsPorts]
  }

  function CopySrs(s: SrsPdu): (d: SrsPdu)
    requires SrsShaped(s)
    ensures SrsShaped(d) && d.numSymbols == s.numSymbols
  {
    var q := s.params;
    SrsPdu(s.fields, s.numSymbols, CopyUlBeamforming(s.beamforming),
           SrsParameters(q.bandwidthSize, q.symbols[..SrsSymbolCount(s.numSymbols)], q.usage,
                         q.reportType[..Popcount(q.usage)], q.fields,
                         q.numUlSpatialStreamsPorts, q.ulPorts[..q.numUlSpatialStreamsPorts]))
  }

  const EmptySrs := SrsPdu([], 0, EmptyUlBeamforming, SrsParameters(0, [], 0, [], [], 0, []))

  lemma SrsEqIffCopiesEqual(a: SrsPdu, b: SrsPdu)
    requires SrsShaped(a) && SrsShaped(b)
    ensures SrsEq(a, b) <==> CopySrs(a) == CopySrs(b)
  {
    UlBeamformingEqIffCopiesEqual(a.beamforming, b.beamforming);
  }

  lemma CopySrsIdempotent(s: SrsPdu)
    requires SrsShaped(s)
    ensures CopySrs(CopySrs(s)) == CopySrs(s)
  {
    CopyUlBeamformingIdempotent(s.beamforming);
  }

  // ---------------------------------------------------------------
  // One UL_TTI PDU and the request
  // ---------------------------------------------------------------

  datatype UlPdu = UlPdu(pduType: int, pduSize: int, prach: PlainUlPdu, pusch: PuschPdu,
                         pucch: PlainUlPdu, srs: SrsPdu)

  predicate UlPduShaped(p: UlPdu) {
    (p.pduType == PrachPduType ==> PlainUlShaped(p.prach))
    && (p.pduType == PuschPduType ==> PuschShaped(p.pusch))
    && (p.pduType == PucchPduType ==> PlainUlShaped(p.pucch))
    && (p.pduType == SrsPduType ==> SrsShaped(p.srs))
  }

  predicate UlPduEq(a: UlPdu, b: UlPdu)
    requires UlPduShaped(a) && UlPduShaped(b)
  {
    a.pduType == b.pduType && a.pduSize == b.pduSize
    && (if a.pduType == PrachPduType then PlainUlEq(a.prach, b.prach)
        else if a.pduType == PuschPduType then PuschEq(a.pusch, b.pusch)
        else if a.pduType == PucchPduType then PlainUlEq(a.pucch, b.pucch)
        else if a.pduType == SrsPduType then SrsEq(a.srs, b.srs)
        else false)
  }

  const EmptyPusch := PuschPdu(0, [], EmptyPuschData, [], EmptyPtrs, [], EmptyUlBeamforming)

  function CopyUlPdu(s: UlPdu): (r: Outcome<UlPdu>)
    requires UlPduShaped(s)
    ensures r.Ok? <==> KnownUlPduType(s.pduType)
    ensures r.Ok? ==> UlPduShaped(r.value) && r.value.pduType == s.pduType && r.value.pduSize == s.pduSize
  {
    if !KnownUlPduType(s.pduType) then Fatal
    else
      Ok(UlPdu(s.pduType, s.pduSize,
               if s.pduType == PrachPduType then CopyPlainUl(s.prach) else EmptyPlainUl,
               if s.pduType == PuschPduType then CopyPusch(s.pusch) else EmptyPusch,
               if s.pduType == PucchPduType then CopyPlainUl(s.pucch) else EmptyPlainUl,
               if s.pduType == SrsPduType then CopySrs(s.srs) else EmptySrs))
  }

  lemma UlPduEqIffCopiesEqual(a: UlPdu, b: UlPdu)
    requires UlPduShaped(a) && UlPduShaped(b)
    ensures UlPduEq(a, b) <==> (CopyUlPdu(a).Ok? && CopyUlPdu(a) == CopyUlPdu(b))
  {
    if a.pduType == b.pduType && a.pduType == PrachPduType {
      PlainUlEqIffCopiesEqual(a.prach, b.prach);
    } else if a.pduType == b.pduType && a.pduType == PuschPduType {
      PuschEqIffCopiesEqual(a.pusch, b.pusch);
    } else if a.pduType == b.pduType && a.pduType == PucchPduType {
      PlainUlEqIffCopiesEqual(a.pucch, b.pucch);
    } else if a.pduType == b.pduType && a.pduType == SrsPduType {
      SrsEqIffCopiesEqual(a.srs, b.srs);
    }
  }

  lemma CopyUlPduIdempotent(s: UlPdu)
    requires UlPduShaped(s) && KnownUlPduType(s.pduType)
    ensures CopyUlPdu(CopyUlPdu(s).value) == CopyUlPdu(s)
  {
    if s.pduType == PrachPduType {
      CopyUlBeamformingIdempotent(s.prach.beamforming);
    } else if s.pduType == PuschPduType {
      CopyPuschIdempotent(s.pusch);
    } else if s.pduType == PucchPduType {
      CopyUlBeamformingIdempotent(s.pucch.beamforming);
    } else {
      CopySrsIdempotent(s.srs);
    }
  }

  datatype UlGroup = UlGroup(nUe: nat, pduIdx: seq<int>)

  datatype UlTtiRequest = UlTtiRequest(messageId: int, messageLength: int, sfn: int, slot: int,
                                       nPdus: nat, rachPresent: int, nUlsch: int, nUlcch: int,
                                       nGroup: nat, pdus: seq<UlPdu>, groups: seq<UlGroup>)

  predicate UlTtiShaped(r: UlTtiRequest) {
    r.nPdus <= |r.pdus| && (forall i :: 0 <= i < r.nPdus ==> UlPduShaped(r.pdus[i]))
    && r.nGroup <= |r.groups|
    && forall g :: 0 <= g < r.nGroup ==> r.groups[g].nUe <= |r.groups[g].pduIdx|
  }

  function CopyGroup(g: UlGroup): UlGroup
    requires g.nUe <= |g.pduIdx|
  {
    UlGroup(g.nUe, g.pduIdx[..g.nUe])
  }

  /** `eq_ul_tti_request`. */
  predicate EqUlTtiRequest(a: UlTtiRequest, b: UlTtiRequest)
    requires UlTtiShaped(a) && UlTtiShaped(b)
  {
    a.messageId == b.messageId && a.messageLength == b.messageLength
    && a.sfn == b.sfn && a.slot == b.slot && a.nPdus == b.nPdus && a.rachPresent == b.rachPresent
    && a.nUlsch == b.nUlsch && a.nUlcch == b.nUlcch && a.nGroup == b.nGroup
    && (forall i :: 0 <= i < a.nPdus ==> UlPduEq(a.pdus[i], b.pdus[i]))
    && forall g :: 0 <= g < a.nGroup ==> CopyGroup(a.groups[g]) == CopyGroup(b.groups[g])
  }

  predicate AllUlPduTypesKnown(r: UlTtiRequest)
    requires r.nPdus <= |r.pdus|
  {
    forall i :: 0 <= i < r.nPdus ==> KnownUlPduType(r.pdus[i].pduType)
  }

  /** `copy_ul_tti_request`. */
  function CopyUlTtiRequest(s: UlTtiRequest): (r: Outcome<UlTtiRequest>)
    requires UlTtiShaped(s)
    ensures r.Ok? <==> AllUlPduTypesKnown(s)
    ensures r.Ok? ==> UlTtiShaped(r.value) && |r.value.pdus| == s.nPdus && |r.value.groups| == s.nGroup
  {
    if !AllUlPduTypesKnown(s) then Fatal
    else
      Ok(UlTtiRequest(s.messageId, s.messageLength, s.sfn, s.slot, s.nPdus, s.rachPresent,
                      s.nUlsch, s.nUlcch, s.nGroup,
                      seq(s.nPdus, i requires 0 <= i < s.nPdus => CopyUlPdu(s.pdus[i]).value),
                      seq(s.nGroup, g requires 0 <= g < s.nGroup => CopyGroup(s.groups[g]))))
  }

  lemma UlTtiEqIffCopiesEqual(a: UlTtiRequest, b: UlTtiRequest)
    requires UlTtiShaped(a) && UlTtiShaped(b)
    ensures EqUlTtiRequest(a, b) <==> (CopyUlTtiRequest(a).Ok? && CopyUlTtiRequest(a) == CopyUlTtiRequest(b))
  {
    var ca, cb := CopyUlTtiRequest(a), CopyUlTtiRequest(b);
    if EqUlTtiRequest(a, b) {
      forall i | 0 <= i < a.nPdus
        ensures KnownUlPduType(a.pdus[i].pduType) && KnownUlPduType(b.pdus[i].pduType)
        ensures CopyUlPdu(a.pdus[i]) == CopyUlPdu(b.pdus[i])
      {
        UlPduEqIffCopiesEqual(a.pdus[i], b.pdus[i]);
      }
      assert ca.value.pdus == cb.value.pdus;
      assert ca.value.groups == cb.value.groups;
    }
    if ca.Ok? && ca == cb {
      forall i | 0 <= i < a.nPdus
        ensures UlPduEq(a.pdus[i], b.pdus[i])
      {
        assert ca.value.pdus[i] == cb.value.pdus[i];
        UlPduEqIffCopiesEqual(a.pdus[i], b.pdus[i]);
      }
      forall g | 0 <= g < a.nGroup
        ensures CopyGroup(a.groups[g]) == CopyGroup(b.groups[g])
      {
        assert ca.value.groups[g] == cb.value.groups[g];
      }
    }
  }

  lemma CopyUlTtiIdempotent(s: UlTtiRequest)
    requires UlTtiShaped(s) && AllUlPduTypesKnown(s)
    ensures CopyUlTtiRequest(CopyUlTtiRequest(s).value) == CopyUlTtiRequest(s)
  {
    var c := CopyUlTtiRequest(s).value;
    forall i | 0 <= i < s.nPdus
      ensures KnownUlPduType(c.pdus[i].pduType)
      ensures CopyUlPdu(c.pdus[i]).value == c.pdus[i]
    {
      CopyUlPduIdempotent(s.pdus[i]);
    }
    forall g | 0 <= g < s.nGroup
      ensures CopyGroup(c.groups[g]) == c.groups[g]
    {
      assert c.groups[g].pduIdx[..c.groups[g].nUe] == c.groups[g].pduIdx;
    }
    var cc := CopyUlTtiRequest(c).value;
    assert cc.pdus == c.pdus;
    assert cc.groups == c.groups;
  }

  /** Copying and then comparing yields true, in either argument order. */
  lemma UlTtiCopyThenEq(s: UlTtiRequest)
    requires UlTtiShaped(s) && AllUlPduTypesKnown(s)
    ensures CopyUlTtiRequest(s).Ok?
    ensures EqUlTtiRequest(s, CopyUlTtiRequest(s).value)
    ensures EqUlTtiRequest(CopyUlTtiRequest(s).value, s)
  {
    var c := CopyUlTtiRequest(s).value;
    CopyUlTtiIdempotent(s);
    UlTtiEqIffCopiesEqual(s, c);
    UlTtiEqIffCopiesEqual(c, s);
  }

  lemma UlTtiUnknownType(a: UlTtiRequest, b: UlTtiRequest, i: nat)
    requires UlTtiShaped(a) && UlTtiShaped(b)
    requires i < a.nPdus && !KnownUlPduType(a.pdus[i].pduType)
    ensures !EqUlTtiRequest(a, b)
    ensures CopyUlTtiRequest(a) == Fatal
  {
  }
}
