/** Structural equality and deep copy of the FAPI DL_TTI.request and
    UL_DCI.request messages.

    Scalar members of a C structure, and its fixed-size arrays that are
    always compared in full, are gathered into one `fields` sequence:
    equality of that sequence is the conjunction of the per-member
    comparisons. Counted lists keep their count and their storage apart,
    because only the first `count` entries are compared or copied. The
    C union of PDU bodies is modelled as a record holding one body of
    each kind, of which only the one that `pduType` selects is used. */
module FapiDlTti {
  import opened Common

  const PdcchPduType := 0
  const PdschPduType := 1
  const CsiRsPduType := 2
  const SsbPduType := 3

  predicate KnownDlPduType(t: int) {
    PdcchPduType <= t <= SsbPduType
  }

  // ---------------------------------------------------------------
  // Precoding and beamforming
  // ---------------------------------------------------------------

  datatype DlPrg = DlPrg(pmIdx: int, beamIdx: seq<int>)

  datatype DlBeamforming =
    DlBeamforming(numPrgs: nat, prgSize: int, digBfInterfaces: nat, prgs: seq<DlPrg>)

  /** The storage holds at least as many entries as the counts announce. */
  predicate BeamformingShaped(b: DlBeamforming) {
    b.numPrgs <= |b.prgs|
    && forall p :: 0 <= p < b.numPrgs ==> b.digBfInterfaces <= |b.prgs[p].beamIdx|
  }

  predicate PrgEq(a: DlPrg, b: DlPrg, n: nat)
    requires n <= |a.beamIdx| && n <= |b.beamIdx|
  {
    a.pmIdx == b.pmIdx && a.beamIdx[..n] == b.beamIdx[..n]
  }

  predicate BeamformingEq(a: DlBeamforming, b: DlBeamforming)
    requires BeamformingShaped(a) && BeamformingShaped(b)
  {
    a.numPrgs == b.numPrgs && a.prgSize == b.prgSize && a.digBfInterfaces == b.digBfInterfaces
    && forall p :: 0 <= p < a.numPrgs ==> PrgEq(a.prgs[p], b.prgs[p], a.digBfInterfaces)
  }

  function CopyPrg(s: DlPrg, n: nat): DlPrg
    requires n <= |s.beamIdx|
  {
    DlPrg(s.pmIdx, s.beamIdx[..n])
  }

  function CopyBeamforming(s: DlBeamforming): (d: DlBeamforming)
    requires BeamformingShaped(s)
    ensures BeamformingShaped(d) && |d.prgs| == d.numPrgs
  {
    DlBeamforming(s.numPrgs, s.prgSize, s.digBfInterfaces,
                  seq(s.numPrgs, p requires 0 <= p < s.numPrgs => CopyPrg(s.prgs[p], s.digBfInterfaces)))
  }

  const EmptyBeamforming := DlBeamforming(0, 0, 0, [])

  lemma BeamformingEqIffCopiesEqual(a: DlBeamforming, b: DlBeamforming)
    requires BeamformingShaped(a) && BeamformingShaped(b)
    ensures BeamformingEq(a, b) <==> CopyBeamforming(a) == CopyBeamforming(b)
  {
    var ca, cb := CopyBeamforming(a), CopyBeamforming(b);
    if BeamformingEq(a, b) {
      assert ca.prgs == cb.prgs by {
        forall p | 0 <= p < a.numPrgs
          ensures ca.prgs[p] == cb.prgs[p]
        {
          assert PrgEq(a.prgs[p], b.prgs[p], a.digBfInterfaces);
        }
      }
    }
    if ca == cb {
      forall p | 0 <= p < a.numPrgs
        ensures PrgEq(a.prgs[p], b.prgs[p], a.digBfInterfaces)
      {
        assert ca.prgs[p] == cb.prgs[p];
      }
    }
  }

  lemma CopyBeamformingIdempotent(s: DlBeamforming)
    requires BeamformingShaped(s)
    ensures CopyBeamforming(CopyBeamforming(s)) == CopyBeamforming(s)
  {
    var c := CopyBeamforming(s);
    forall p | 0 <= p < c.numPrgs
      ensures CopyPrg(c.prgs[p], c.digBfInterfaces) == c.prgs[p]
    {
      assert c.prgs[p].beamIdx[..c.digBfInterfaces] == c.prgs[p].beamIdx;
    }
    assert CopyBeamforming(c).prgs == c.prgs;
  }

  // ---------------------------------------------------------------
  // PDCCH PDU with its list of DL DCIs
  // ---------------------------------------------------------------

  /** One DL DCI: its scalars and fixed 8-byte payload, and its beamforming. */
  datatype Dci = Dci(fields: seq<int>, beamforming: DlBeamforming)

  datatype PdcchPdu = PdcchPdu(fields: seq<int>, numDlDci: nat, dci: seq<Dci>)

  predicate PdcchShaped(p: PdcchPdu) {
    p.numDlDci <= |p.dci|
    && forall i :: 0 <= i < p.numDlDci ==> BeamformingShaped(p.dci[i].beamforming)
  }

  predicate DciEq(a: Dci, b: Dci)
    requires BeamformingShaped(a.beamforming) && BeamformingShaped(b.beamforming)
  {
    a.fields == b.fields && BeamformingEq(a.beamforming, b.beamforming)
  }

  predicate PdcchEq(a: PdcchPdu, b: PdcchPdu)
    requires PdcchShaped(a) && PdcchShaped(b)
  {
    a.fields == b.fields && a.numDlDci == b.numDlDci
    && forall i :: 0 <= i < a.numDlDci ==> DciEq(a.dci[i], b.dci[i])
  }

  function CopyDci(s: Dci): Dci
    requires BeamformingShaped(s.beamforming)
  {
    Dci(s.fields, CopyBeamforming(s.beamforming))
  }

  function CopyPdcch(s: PdcchPdu): (d: PdcchPdu)
    requires PdcchShaped(s)
    ensures PdcchShaped(d) && |d.dci| == d.numDlDci
  {
    PdcchPdu(s.fields, s.numDlDci,
             seq(s.numDlDci, i requires 0 <= i < s.numDlDci => CopyDci(s.dci[i])))
  }

  const EmptyPdcch := PdcchPdu([], 0, [])

  lemma DciEqIffCopiesEqual(a: Dci, b: Dci)
    requires BeamformingShaped(a.beamforming) && BeamformingShaped(b.beamforming)
    ensures DciEq(a, b) <==> CopyDci(a) == CopyDci(b)
  {
    BeamformingEqIffCopiesEqual(a.beamforming, b.beamforming);
  }

  lemma PdcchEqIffCopiesEqual(a: PdcchPdu, b: PdcchPdu)
    requires PdcchShaped(a) && PdcchShaped(b)
    ensures PdcchEq(a, b) <==> CopyPdcch(a) == CopyPdcch(b)
  {
    var ca, cb := CopyPdcch(a), CopyPdcch(b);
    if PdcchEq(a, b) {
      assert ca.dci == cb.dci by {
        forall i | 0 <= i < a.numDlDci
          ensures ca.dci[i] == cb.dci[i]
        {
          DciEqIffCopiesEqual(a.dci[i], b.dci[i]);
        }
      }
    }
    if ca == cb {
      forall i | 0 <= i < a.numDlDci
        ensures DciEq(a.dci[i], b.dci[i])
      {
        assert ca.dci[i] == cb.dci[i];
        DciEqIffCopiesEqual(a.dci[i], b.dci[i]);
      }
    }
  }

  lemma CopyPdcchIdempotent(s: PdcchPdu)
    requires PdcchShaped(s)
    ensures CopyPdcch(CopyPdcch(s)) == CopyPdcch(s)
  {
    var c := CopyPdcch(s);
    forall i | 0 <= i < s.numDlDci
      ensures CopyDci(c.dci[i]) == c.dci[i]
    {
      CopyBeamformingIdempotent(s.dci[i].beamforming);
    }
    assert CopyPdcch(c).dci == c.dci;
  }

  // ---------------------------------------------------------------
  // PDSCH PDU with its codeword list
  // ---------------------------------------------------------------

  /** Each codeword holds target code rate, modulation order, MCS index,
      MCS table, redundancy version and TB size. */
  datatype PdschPdu =
    PdschPdu(fields: seq<int>, nrOfCodewords: nat, codewords: seq<seq<int>>, beamforming: DlBeamforming)

  predicate PdschShaped(p: PdschPdu) {
    p.nrOfCodewords <= |p.codewords| && BeamformingShaped(p.beamforming)
  }

  predicate PdschEq(a: PdschPdu, b: PdschPdu)
    requires PdschShaped(a) && PdschShaped(b)
  {
    a.fields == b.fields && a.nrOfCodewords == b.nrOfCodewords
    && a.codewords[..a.nrOfCodewords] == b.codewords[..a.nrOfCodewords]
    && BeamformingEq(a.beamforming, b.beamforming)
  }

  function CopyPdsch(s: PdschPdu): (d: PdschPdu)
    requires PdschShaped(s)
    ensures PdschShaped(d) && |d.codewords| == d.nrOfCodewords
  {
    PdschPdu(s.fields, s.nrOfCodewords, s.codewords[..s.nrOfCodewords], CopyBeamforming(s.beamforming))
  }

  const EmptyPdsch := PdschPdu([], 0, [], EmptyBeamforming)

  lemma PdschEqIffCopiesEqual(a: PdschPdu, b: PdschPdu)
    requires PdschShaped(a) && PdschShaped(b)
    ensures PdschEq(a, b) <==> CopyPdsch(a) == CopyPdsch(b)
  {
    BeamformingEqIffCopiesEqual(a.beamforming, b.beamforming);
  }

  lemma CopyPdschIdempotent(s: PdschPdu)
    requires PdschShaped(s)
    ensures CopyPdsch(CopyPdsch(s)) == CopyPdsch(s)
  {
    CopyBeamformingIdempotent(s.beamforming);
    var c := CopyPdsch(s);
    assert c.codewords[..c.nrOfCodewords] == c.codewords;
  }

  // ---------------------------------------------------------------
  // CSI-RS and SSB PDUs: scalars and one beamforming block
  // ---------------------------------------------------------------

  /** The SSB `fields` include `bchPayloadFlag` and `bchPayload`. */
  datatype PlainPdu = PlainPdu(fields: seq<int>, beamforming: DlBeamforming)

  predicate PlainShaped(p: PlainPdu) {
    BeamformingShaped(p.beamforming)
  }

  predicate PlainEq(a: PlainPdu, b: PlainPdu)
    requires PlainShaped(a) && PlainShaped(b)
  {
    a.fields == b.fields && BeamformingEq(a.beamforming, b.beamforming)
  }

  function CopyPlain(s: PlainPdu): (d: PlainPdu)
    requires PlainShaped(s)
    ensures PlainShaped(d)
  {
    PlainPdu(s.fields, CopyBeamforming(s.beamforming))
  }

  const EmptyPlain := PlainPdu([], EmptyBeamforming)

  lemma PlainEqIffCopiesEqual(a: PlainPdu, b: PlainPdu)
    requires PlainShaped(a) && PlainShaped(b)
    ensures PlainEq(a, b) <==> CopyPlain(a) == CopyPlain(b)
  {
    BeamformingEqIffCopiesEqual(a.beamforming, b.beamforming);
  }

  // ---------------------------------------------------------------
  // One DL_TTI PDU
  // ---------------------------------------------------------------

  datatype DlPdu = DlPdu(pduType: int, pduSize: int, pdcch: PdcchPdu, pdsch: PdschPdu,
                         csiRs: PlainPdu, ssb: PlainPdu)

  /** The body that `pduType` selects is well shaped; the others are not read. */
  predicate DlPduShaped(p: DlPdu) {
    (p.pduType == PdcchPduType ==> PdcchShaped(p.pdcch))
    && (p.pduType == PdschPduType ==> PdschShaped(p.pdsch))
    && (p.pduType == CsiRsPduType ==> PlainShaped(p.csiRs))
    && (p.pduType == SsbPduType ==> PlainShaped(p.ssb))
  }

  /** Equality of two PDUs; an unknown PDU type compares unequal. */
  predicate DlPduEq(a: DlPdu, b: DlPdu)
    requires DlPduShaped(a) && DlPduShaped(b)
  {
    a.pduType == b.pduType && a.pduSize == b.pduSize
    && (if a.pduType == PdcchPduType then PdcchEq(a.pdcch, b.pdcch)
        else if a.pduType == PdschPduType then PdschEq(a.pdsch, b.pdsch)
        else if a.pduType == CsiRsPduType then PlainEq(a.csiRs, b.csiRs)
        else if a.pduType == SsbPduType then PlainEq(a.ssb, b.ssb)
        else false)
  }

  /** Copies the selected body; an unknown PDU type stops the program. */
  function CopyDlPdu(s: DlPdu): (r: Outcome<DlPdu>)
    requires DlPduShaped(s)
    ensures r.Ok? <==> KnownDlPduType(s.pduType)
    ensures r.Ok? ==> DlPduShaped(r.value) && r.value.pduType == s.pduType && r.value.pduSize == s.pduSize
  {
    if !KnownDlPduType(s.pduType) then Fatal
    else
      Ok(DlPdu(s.pduType, s.pduSize,
               if s.pduType == PdcchPduType then CopyPdcch(s.pdcch) else EmptyPdcch,
               if s.pduType == PdschPduType then CopyPdsch(s.pdsch) else EmptyPdsch,
               if s.pduType == CsiRsPduType then CopyPlain(s.csiRs) else EmptyPlain,
               if s.pduType == SsbPduType then CopyPlain(s.ssb) else EmptyPlain))
  }

  lemma DlPduEqIffCopiesEqual(a: DlPdu, b: DlPdu)
    requires DlPduShaped(a) && DlPduShaped(b)
    ensures DlPduEq(a, b) <==> (CopyDlPdu(a).Ok? && CopyDlPdu(a) == CopyDlPdu(b))
  {
    if a.pduType == b.pduType && a.pduType == PdcchPduType {
      PdcchEqIffCopiesEqual(a.pdcch, b.pdcch);
    } else if a.pduType == b.pduType && a.pduType == PdschPduType {
      PdschEqIffCopiesEqual(a.pdsch, b.pdsch);
    } else if a.pduType == b.pduType && a.pduType == CsiRsPduType {
      PlainEqIffCopiesEqual(a.csiRs, b.csiRs);
    } else if a.pduType == b.pduType && a.pduType == SsbPduType {
      PlainEqIffCopiesEqual(a.ssb, b.ssb);
    }
  }

  lemma CopyDlPduIdempotent(s: DlPdu)
    requires DlPduShaped(s) && KnownDlPduType(s.pduType)
    ensures CopyDlPdu(CopyDlPdu(s).value) == CopyDlPdu(s)
  {
    if s.pduType == PdcchPduType {
      CopyPdcchIdempotent(s.pdcch);
    } else if s.pduType == PdschPduType {
      CopyPdschIdempotent(s.pdsch);
    } else if s.pduType == CsiRsPduType {
      CopyBeamformingIdempotent(s.csiRs.beamforming);
    } else {
      CopyBeamformingIdempotent(s.ssb.beamforming);
    }
  }

  // ---------------------------------------------------------------
  // DL_TTI.request
  // ---------------------------------------------------------------

  /** `nUe[g]` UEs of group `g` are listed by their PDU index in `pduIdx[g]`. */
  datatype DlTtiRequest = DlTtiRequest(messageId: int, messageLength: int, sfn: int, slot: int,
                                       nPdus: nat, nGroup: nat, pdus: seq<DlPdu>,
                                       nUe: seq<nat>, pduIdx: seq<seq<int>>)

  predicate DlTtiShaped(r: DlTtiRequest) {
    r.nPdus <= |r.pdus| && (forall i :: 0 <= i < r.nPdus ==> DlPduShaped(r.pdus[i]))
    && r.nGroup <= |r.nUe| && r.nGroup <= |r.pduIdx|
    && forall g :: 0 <= g < r.nGroup ==> r.nUe[g] <= |r.pduIdx[g]|
  }

  predicate GroupsEq(a: DlTtiRequest, b: DlTtiRequest)
    requires DlTtiShaped(a) && DlTtiShaped(b) && a.nGroup == b.nGroup
  {
    forall g :: 0 <= g < a.nGroup ==>
      a.nUe[g] == b.nUe[g] && a.pduIdx[g][..a.nUe[g]] == b.pduIdx[g][..a.nUe[g]]
  }

  /** `eq_dl_tti_request`. */
  predicate EqDlTtiRequest(a: DlTtiRequest, b: DlTtiRequest)
    requires DlTtiShaped(a) && DlTtiShaped(b)
  {
    a.messageId == b.messageId && a.messageLength == b.messageLength
    && a.sfn == b.sfn && a.slot == b.slot && a.nPdus == b.nPdus && a.nGroup == b.nGroup
    && (forall i :: 0 <= i < a.nPdus ==> DlPduEq(a.pdus[i], b.pdus[i]))
    && GroupsEq(a, b)
  }

  predicate AllDlPduTypesKnown(r: DlTtiRequest)
    requires r.nPdus <= |r.pdus|
  {
    forall i :: 0 <= i < r.nPdus ==> KnownDlPduType(r.pdus[i].pduType)
  }

  /** `copy_dl_tti_request`: the vendor extension is not modelled. */
  function CopyDlTtiRequest(s: DlTtiRequest): (r: Outcome<DlTtiRequest>)
    requires DlTtiShaped(s)
    ensures r.Ok? <==> AllDlPduTypesKnown(s)
    ensures r.Ok? ==> DlTtiShaped(r.value) && |r.value.pdus| == s.nPdus && |r.value.nUe| == s.nGroup
  {
    if !AllDlPduTypesKnown(s) then Fatal
    else
      Ok(DlTtiRequest(s.messageId, s.messageLength, s.sfn, s.slot, s.nPdus, s.nGroup,
                      seq(s.nPdus, i requires 0 <= i < s.nPdus => CopyDlPdu(s.pdus[i]).value),
                      s.nUe[..s.nGroup],
                      seq(s.nGroup, g requires 0 <= g < s.nGroup => s.pduIdx[g][..s.nUe[g]])))
  }

  /** Equality holds exactly when both messages have only known PDU types
      and their copies coincide: `eq_dl_tti_request` compares what
      `copy_dl_tti_request` copies, and nothing else. */
  lemma DlTtiEqIffCopiesEqual(a: DlTtiRequest, b: DlTtiRequest)
    requires DlTtiShaped(a) && DlTtiShaped(b)
    ensures EqDlTtiRequest(a, b) <==> (CopyDlTtiRequest(a).Ok? && CopyDlTtiRequest(a) == CopyDlTtiRequest(b))
  {
    var ca, cb := CopyDlTtiRequest(a), CopyDlTtiRequest(b);
    if EqDlTtiRequest(a, b) {
      forall i | 0 <= i < a.nPdus
        ensures KnownDlPduType(a.pdus[i].pduType) && KnownDlPduType(b.pdus[i].pduType)
        ensures CopyDlPdu(a.pdus[i]) == CopyDlPdu(b.pdus[i])
      {
        DlPduEqIffCopiesEqual(a.pdus[i], b.pdus[i]);
      }
      assert ca.value.pdus == cb.value.pdus;
      assert ca.value.nUe == cb.value.nUe by {
        forall g | 0 <= g < a.nGroup ensures a.nUe[g] == b.nUe[g] { }
      }
      assert ca.value.pduIdx == cb.value.pduIdx by {
        forall g | 0 <= g < a.nGroup ensures ca.value.pduIdx[g] == cb.value.pduIdx[g] { }
      }
    }
    if ca.Ok? && ca == cb {
      forall i | 0 <= i < a.nPdus
        ensures DlPduEq(a.pdus[i], b.pdus[i])
      {
        assert ca.value.pdus[i] == cb.value.pdus[i];
        DlPduEqIffCopiesEqual(a.pdus[i], b.pdus[i]);
      }
      forall g | 0 <= g < a.nGroup
        ensures a.nUe[g] == b.nUe[g] && a.pduIdx[g][..a.nUe[g]] == b.pduIdx[g][..a.nUe[g]]
      {
        assert ca.value.nUe[g] == cb.value.nUe[g];
        assert ca.value.pduIdx[g] == cb.value.pduIdx[g];
      }
    }
  }

  lemma CopyDlTtiIdempotent(s: DlTtiRequest)
    requires DlTtiShaped(s) && AllDlPduTypesKnown(s)
    ensures CopyDlTtiRequest(CopyDlTtiRequest(s).value) == CopyDlTtiRequest(s)
  {
    var c := CopyDlTtiRequest(s).value;
    forall i | 0 <= i < s.nPdus
      ensures KnownDlPduType(c.pdus[i].pduType)
      ensures CopyDlPdu(c.pdus[i]).value == c.pdus[i]
    {
      CopyDlPduIdempotent(s.pdus[i]);
    }
    var cc := CopyDlTtiRequest(c).value;
    assert cc.pdus == c.pdus;
    assert cc.nUe == c.nUe;
    forall g | 0 <= g < s.nGroup
      ensures cc.pduIdx[g] == c.pduIdx[g]
    {
      assert c.pduIdx[g][..c.nUe[g]] == c.pduIdx[g];
    }
    assert cc.pduIdx == c.pduIdx;
  }

  /** Copying and then comparing yields true, in either argument order. */
  lemma DlTtiCopyThenEq(s: DlTtiRequest)
    requires DlTtiShaped(s) && AllDlPduTypesKnown(s)
    ensures CopyDlTtiRequest(s).Ok?
    ensures EqDlTtiRequest(s, CopyDlTtiRequest(s).value)
    ensures EqDlTtiRequest(CopyDlTtiRequest(s).value, s)
  {
    var c := CopyDlTtiRequest(s).value;
    CopyDlTtiIdempotent(s);
    DlTtiEqIffCopiesEqual(s, c);
    DlTtiEqIffCopiesEqual(c, s);
  }

  /** A PDU of unknown type makes the message unequal to every other
      message, and its copy stops the program. */
  lemma DlTtiUnknownType(a: DlTtiRequest, b: DlTtiRequest, i: nat)
    requires DlTtiShaped(a) && DlTtiShaped(b)
    requires i < a.nPdus && !KnownDlPduType(a.pdus[i].pduType)
    ensures !EqDlTtiRequest(a, b)
    ensures CopyDlTtiRequest(a) == Fatal
  {
  }

  lemma DlTtiEqSymmetric(a: DlTtiRequest, b: DlTtiRequest)
    requires DlTtiShaped(a) && DlTtiShaped(b)
    ensures EqDlTtiRequest(a, b) ==> EqDlTtiRequest(b, a)
  {
    DlTtiEqIffCopiesEqual(a, b);
    DlTtiEqIffCopiesEqual(b, a);
  }

  /** Entries past a list's count take no part in the comparison. */
  lemma DlTtiIgnoresStorageBeyondCounts(a: DlTtiRequest, b: DlTtiRequest, extra: DlPdu)
    requires DlTtiShaped(a) && DlTtiShaped(b)
    ensures EqDlTtiRequest(a, b) <==> EqDlTtiRequest(a.(pdus := a.pdus + [extra]), b)
  {
    var a' := a.(pdus := a.pdus + [extra]);
    assert forall i :: 0 <= i < a.nPdus ==> a'.pdus[i] == a.pdus[i];
  }

  // ---------------------------------------------------------------
  // UL_DCI.request: a list of PDCCH PDUs
  // ---------------------------------------------------------------

  datatype UlDciPdu = UlDciPdu(pduType: int, pduSize: int, pdcch: PdcchPdu)

  datatype UlDciRequest =
    UlDciRequest(messageId: int, messageLength: int, sfn: int, slot: int, numPdus: nat, pdus: seq<UlDciPdu>)

  predicate UlDciShaped(r: UlDciRequest) {
    r.numPdus <= |r.pdus| && forall i :: 0 <= i < r.numPdus ==> PdcchShaped(r.pdus[i].pdcch)
  }

  predicate UlDciPduEq(a: UlDciPdu, b: UlDciPdu)
    requires PdcchShaped(a.pdcch) && PdcchShaped(b.pdcch)
  {
    a.pduType == b.pduType && a.pduSize == b.pduSize && PdcchEq(a.pdcch, b.pdcch)
  }

  /** `eq_ul_dci_request`. */
  predicate EqUlDciRequest(a: UlDciRequest, b: UlDciRequest)
    requires UlDciShaped(a) && UlDciShaped(b)
  {
    a.messageId == b.messageId && a.messageLength == b.messageLength
    && a.sfn == b.sfn && a.slot == b.slot && a.numPdus == b.numPdus
    && forall i :: 0 <= i < a.numPdus ==> UlDciPduEq(a.pdus[i], b.pdus[i])
  }

  function CopyUlDciPdu(s: UlDciPdu): UlDciPdu
    requires PdcchShaped(s.pdcch)
  {
    UlDciPdu(s.pduType, s.pduSize, CopyPdcch(s.pdcch))
  }

  /** `copy_ul_dci_request`. */
  function CopyUlDciRequest(s: UlDciRequest): (d: UlDciRequest)
    requires UlDciShaped(s)
    ensures UlDciShaped(d) && |d.pdus| == d.numPdus
  {
    UlDciRequest(s.messageId, s.messageLength, s.sfn, s.slot, s.numPdus,
                 seq(s.numPdus, i requires 0 <= i < s.numPdus => CopyUlDciPdu(s.pdus[i])))
  }

  lemma UlDciEqIffCopiesEqual(a: UlDciRequest, b: UlDciRequest)
    requires UlDciShaped(a) && UlDciShaped(b)
    ensures EqUlDciRequest(a, b) <==> CopyUlDciRequest(a) == CopyUlDciRequest(b)
  {
    var ca, cb := CopyUlDciRequest(a), CopyUlDciRequest(b);
    if EqUlDciRequest(a, b) {
      forall i | 0 <= i < a.numPdus
        ensures ca.pdus[i] == cb.pdus[i]
      {
        PdcchEqIffCopiesEqual(a.pdus[i].pdcch, b.pdus[i].pdcch);
      }
      assert ca.pdus == cb.pdus;
    }
    if ca == cb {
      forall i | 0 <= i < a.numPdus
        ensures UlDciPduEq(a.pdus[i], b.pdus[i])
      {
        assert ca.pdus[i] == cb.pdus[i];
        PdcchEqIffCopiesEqual(a.pdus[i].pdcch, b.pdus[i].pdcch);
      }
    }
  }

  lemma UlDciCopyThenEq(s: UlDciRequest)
    requires UlDciShaped(s)
    ensures EqUlDciRequest(s, CopyUlDciRequest(s))
  {
    var c := CopyUlDciRequest(s);
    forall i | 0 <= i < s.numPdus
      ensures CopyUlDciPdu(c.pdus[i]) == c.pdus[i]
    {
      CopyPdcchIdempotent(s.pdus[i].pdcch);
    }
    assert CopyUlDciRequest(c) == c;
    UlDciEqIffCopiesEqual(s, c);
  }
}
