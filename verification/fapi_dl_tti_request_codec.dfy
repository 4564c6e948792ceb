/** The DL_TTI.request as the P7 packer writes it: a header of counts,
    the PDUs, each behind its type and its size, then the UE groups.

    The packer rewrites each PDU's size field with the number of bytes
    it actually wrote, so the round trip is stated against the "sized"
    request the packer leaves behind. */
module FapiDlTtiRequestCodec {
  import opened Common
  import opened FapiWire
  import opened FapiDlTti
  import opened FapiDlTtiCodec

  // ---------------------------------------------------------------
  // Packed lengths of the PDU bodies
  // ---------------------------------------------------------------

  /** Bytes taken by `count` PRGs of `n` beam indices each. */
  function PrgsBytes(count: nat, n: nat): nat
    decreases count
  {
    if count == 0 then 0 else 2 + 2 * n + PrgsBytes(count - 1, n)
  }

  function BeamformingBytes(b: DlBeamforming): nat {
    5 + PrgsBytes(b.numPrgs, b.digBfInterfaces)
  }

  function DciBytes(L: DlLayouts, d: Dci): nat
    requires LayoutsShaped(L) && DciPackable(L, d)
  {
    FieldsSize(L.dciHead) + BeamformingBytes(d.beamforming) + FieldsSize(L.dciPower) + DciWireBytes(L, d)
  }

  function DcisBytes(L: DlLayouts, ds: seq<Dci>): nat
    requires LayoutsShaped(L) && DcisPackable(L, ds)
    decreases |ds|
  {
    if |ds| == 0 then 0 else DciBytes(L, ds[0]) + DcisBytes(L, ds[1..])
  }

  function PdcchBytes(L: DlLayouts, p: PdcchPdu): nat
    requires LayoutsShaped(L) && PdcchPackable(L, p)
  {
    FieldsSize(L.pdcch) + 2 + DcisBytes(L, p.dci[..p.numDlDci])
  }

  /** A gated group takes its bytes only when the bitmap announces it. */
  function GatedBytes(present: bool, ws: seq<Width>): nat {
    if present then FieldsSize(ws) else 0
  }

  function PdschBytes(L: DlLayouts, p: PdschPdu): nat
    requires LayoutsShaped(L) && PdschWellFormed(L, p)
  {
    var hd := PdschHead(L, p);
    FieldsSize(L.pdschHead) + 1 + p.nrOfCodewords * FieldsSize(L.codeword) + FieldsSize(L.pdschBody)
    + GatedBytes(PtrsPresent(hd), L.ptrs) + BeamformingBytes(p.beamforming) + FieldsSize(L.pdschPower)
    + GatedBytes(CbgPresent(hd), L.cbg) + FieldsSize(L.maintenance)
  }

  function CsiRsBytes(L: DlLayouts, p: PlainPdu): nat {
    FieldsSize(L.csiRs) + BeamformingBytes(p.beamforming)
  }

  function SsbBytes(L: DlLayouts, p: PlainPdu): nat {
    FieldsSize(L.ssb) + 4 + BeamformingBytes(p.beamforming)
  }

  // ---------------------------------------------------------------
  // Each packer writes exactly its length in front of the tail
  // ---------------------------------------------------------------

  lemma {:induction false} EncodeRecordsLength(ws: seq<Width>, rs: seq<seq<int>>, tail: seq<Byte>)
    requires forall i :: 0 <= i < |rs| ==> |rs[i]| == |ws|
    ensures |EncodeRecords(ws, rs, tail)| == |rs| * FieldsSize(ws) + |tail|
    decreases |rs|
  {
    if |rs| > 0 {
      EncodeRecordsLength(ws, rs[1..], tail);
      assert |rs| * FieldsSize(ws) == FieldsSize(ws) + (|rs| - 1) * FieldsSize(ws);
    }
  }

  lemma {:induction false} PackPrgsLength(prgs: seq<DlPrg>, n: nat, tail: seq<Byte>)
    requires forall p :: 0 <= p < |prgs| ==> n <= |prgs[p].beamIdx|
    ensures |PackPrgs(prgs, n, tail)| == PrgsBytes(|prgs|, n) + |tail|
    decreases |prgs|
  {
    if |prgs| > 0 {
      RepeatSize(W16, n);
      PackPrgsLength(prgs[1..], n, tail);
    }
  }

  lemma PackBeamformingLength(b: DlBeamforming, tail: seq<Byte>)
    requires BeamformingShaped(b)
    ensures |PackBeamforming(b, tail)| == BeamformingBytes(b) + |tail|
  {
    PackPrgsLength(b.prgs[..b.numPrgs], b.digBfInterfaces, tail);
  }

  lemma PackDciLength(L: DlLayouts, d: Dci, tail: seq<Byte>)
    requires LayoutsShaped(L) && DciPackable(L, d)
    ensures |PackDci(L, d, tail)| == DciBytes(L, d) + |tail|
  {
    var t := EncodeFields(L.dciPower, DciPower(L, d), PushBytes(DciPayload(L, d), tail));
    PackBeamformingLength(d.beamforming, t);
  }

  lemma {:induction false} PackDcisLength(L: DlLayouts, ds: seq<Dci>, tail: seq<Byte>)
    requires LayoutsShaped(L) && DcisPackable(L, ds)
    ensures |PackDcis(L, ds, tail)| == DcisBytes(L, ds) + |tail|
    decreases |ds|
  {
    if |ds| > 0 {
      PackDcisLength(L, ds[1..], tail);
      PackDciLength(L, ds[0], PackDcis(L, ds[1..], tail));
    }
  }

  lemma PackPdcchLength(L: DlLayouts, p: PdcchPdu, tail: seq<Byte>)
    requires LayoutsShaped(L) && PdcchPackable(L, p)
    ensures |PackPdcch(L, p, tail)| == PdcchBytes(L, p) + |tail|
  {
    PackDcisLength(L, p.dci[..p.numDlDci], tail);
  }

  lemma PackPdschLength(L: DlLayouts, p: PdschPdu, tail: seq<Byte>)
    requires LayoutsShaped(L) && PdschWellFormed(L, p)
    ensures |PackPdsch(L, p, tail)| == PdschBytes(L, p) + |tail|
  {
    var hd := PdschHead(L, p);
    var t3 := EncodeFields(L.pdschPower, PdschPower(L, p),
      EncodeGated(CbgPresent(hd), L.cbg, PdschCbg(L, p), EncodeFields(L.maintenance, PdschMaintenance(L, p), tail)));
    PackBeamformingLength(p.beamforming, t3);
    var t1 := EncodeFields(L.pdschBody, PdschBody(L, p),
      PackPdschRest(L, hd, PdschPtrs(L, p), p.beamforming, PdschPower(L, p), PdschCbg(L, p), PdschMaintenance(L, p), tail));
    EncodeRecordsLength(L.codeword, p.codewords[..p.nrOfCodewords], t1);
  }

  lemma PackCsiRsLength(L: DlLayouts, p: PlainPdu, tail: seq<Byte>)
    requires CsiRsWellFormed(L, p)
    ensures |PackCsiRs(L, p, tail)| == CsiRsBytes(L, p) + |tail|
  {
    PackBeamformingLength(p.beamforming, tail);
  }

  lemma PackSsbLength(L: DlLayouts, p: PlainPdu, tail: seq<Byte>)
    requires SsbWellFormed(L, p)
    ensures |PackSsb(L, p, tail)| == SsbBytes(L, p) + |tail|
  {
    PackBeamformingLength(p.beamforming, tail);
    RepeatSize(W8, 4);
  }

  // ---------------------------------------------------------------
  // One PDU: type, size, body
  // ---------------------------------------------------------------

  /** The body that the type selects can be packed; an unknown type has
      no body. */
  predicate PduPackable(L: DlLayouts, p: DlPdu)
    requires LayoutsShaped(L)
  {
    (p.pduType == PdcchPduType ==> PdcchPackable(L, p.pdcch))
    && (p.pduType == PdschPduType ==> PdschWellFormed(L, p.pdsch))
    && (p.pduType == CsiRsPduType ==> CsiRsWellFormed(L, p.csiRs))
    && (p.pduType == SsbPduType ==> SsbWellFormed(L, p.ssb))
  }

  /** The type and every value of the selected body fit their wire
      widths. */
  predicate PduFits(L: DlLayouts, p: DlPdu)
    requires LayoutsShaped(L)
  {
    Fits(W16, p.pduType)
    && (p.pduType == PdcchPduType ==> PdcchFits(L, p.pdcch))
    && (p.pduType == PdschPduType ==> PdschFits(L, p.pdsch))
    && (p.pduType == CsiRsPduType ==> CsiRsFits(L, p.csiRs))
    && (p.pduType == SsbPduType ==> SsbFits(L, p.ssb))
  }

  /** The `switch` on the PDU type; an unknown type writes nothing. */
  function PackPduBody(L: DlLayouts, p: DlPdu, tail: seq<Byte>): seq<Byte>
    requires LayoutsShaped(L) && PduPackable(L, p)
  {
    if p.pduType == PdcchPduType then PackPdcch(L, p.pdcch, tail)
    else if p.pduType == PdschPduType then PackPdsch(L, p.pdsch, tail)
    else if p.pduType == CsiRsPduType then PackCsiRs(L, p.csiRs, tail)
    else if p.pduType == SsbPduType then PackSsb(L, p.ssb, tail)
    else tail
  }

  function PduBodyBytes(L: DlLayouts, p: DlPdu): nat
    requires LayoutsShaped(L) && PduPackable(L, p)
  {
    if p.pduType == PdcchPduType then PdcchBytes(L, p.pdcch)
    else if p.pduType == PdschPduType then PdschBytes(L, p.pdsch)
    else if p.pduType == CsiRsPduType then CsiRsBytes(L, p.csiRs)
    else if p.pduType == SsbPduType then SsbBytes(L, p.ssb)
    else 0
  }

  /** The size the packer records: the bytes from the type field to the
      end of the body, kept in 16 bits. */
  function PackedPduSize(L: DlLayouts, p: DlPdu): (n: int)
    requires LayoutsShaped(L) && PduPackable(L, p)
    ensures Fits(W16, n)
  {
    (4 + PduBodyBytes(L, p)) % 0x1_0000
  }

  /** `pack_dl_tti_request_body_value`: the size field is first written
      with the caller's value and then overwritten with the packed size,
      so only the latter reaches the wire. */
  function PackPdu(L: DlLayouts, p: DlPdu, tail: seq<Byte>): seq<Byte>
    requires LayoutsShaped(L) && PduPackable(L, p)
  {
    Push(W16, p.pduType, Push(W16, PackedPduSize(L, p), PackPduBody(L, p, tail)))
  }

  /** The PDU as the packer leaves it: its size field now holds the
      packed size. */
  function SizedPdu(L: DlLayouts, p: DlPdu): (r: DlPdu)
    requires LayoutsShaped(L) && PduPackable(L, p)
    ensures PduPackable(L, r) && r.pduType == p.pduType
  {
    p.(pduSize := PackedPduSize(L, p))
  }

  /** The size field records how many bytes the PDU occupies in the
      stream, modulo 2^16. */
  lemma PackedPduSizeIsLength(L: DlLayouts, p: DlPdu, tail: seq<Byte>)
    requires LayoutsShaped(L) && PduPackable(L, p)
    ensures |PackPdu(L, p, tail)| == 4 + PduBodyBytes(L, p) + |tail|
    ensures PackedPduSize(L, p) == (|PackPdu(L, p, tail)| - |tail|) % 0x1_0000
  {
    if p.pduType == PdcchPduType {
      PackPdcchLength(L, p.pdcch, tail);
    } else if p.pduType == PdschPduType {
      PackPdschLength(L, p.pdsch, tail);
    } else if p.pduType == CsiRsPduType {
      PackCsiRsLength(L, p.csiRs, tail);
    } else if p.pduType == SsbPduType {
      PackSsbLength(L, p.ssb, tail);
    }
  }

  /** A PDU with only its type and size: what the unpacker holds for an
      unknown type. */
  function BarePdu(t: int, size: int): DlPdu {
    DlPdu(t, size, EmptyPdcch, EmptyPdsch, EmptyPlain, EmptyPlain)
  }

  /** `unpack_dl_tti_request_body_value`: an unknown type is accepted and
      leaves the bodies untouched. */
  function PullPdu(L: DlLayouts, s: seq<Byte>): (r: Option<Parsed<DlPdu>>)
    requires LayoutsShaped(L)
    ensures r.Some? ==> PduPackable(L, r.value.value)
  {
    match Pull(W16, s)
    case None => None
    case Some(t) =>
      match Pull(W16, t.rest)
      case None => None
      case Some(sz) => PullPduBody(L, BarePdu(t.value, sz.value), sz.rest)
  }

  /** The body the type of `bare` selects. */
  function PullPduBody(L: DlLayouts, bare: DlPdu, s: seq<Byte>): (r: Option<Parsed<DlPdu>>)
    requires LayoutsShaped(L)
    ensures r.Some? ==> PduPackable(L, r.value.value)
  {
    var t := bare.pduType;
    if t == PdcchPduType then
      match PullPdcch(L, s)
      case None => None
      case Some(b) => Some(Parsed(bare.(pdcch := b.value), b.rest))
    else if t == PdschPduType then
      match PullPdsch(L, s)
      case None => None
      case Some(b) => Some(Parsed(bare.(pdsch := b.value), b.rest))
    else if t == CsiRsPduType then
      match PullCsiRs(L, s)
      case None => None
      case Some(b) => Some(Parsed(bare.(csiRs := b.value), b.rest))
    else if t == SsbPduType then
      match PullSsb(L, s)
      case None => None
      case Some(b) => Some(Parsed(bare.(ssb := b.value), b.rest))
    else Some(Parsed(bare, s))
  }

  /** What the receiver holds for a packed PDU: the packed size, the
      retained form of the selected body, and nothing else. */
  function RetainedPdu(L: DlLayouts, p: DlPdu): (r: DlPdu)
    requires LayoutsShaped(L) && PduPackable(L, p)
    ensures PduPackable(L, r) && DlPduShaped(r)
    ensures r.pduType == p.pduType && r.pduSize == PackedPduSize(L, p)
  {
    var bare := BarePdu(p.pduType, PackedPduSize(L, p));
    if p.pduType == PdcchPduType then bare.(pdcch := RetainedPdcch(L, p.pdcch))
    else if p.pduType == PdschPduType then bare.(pdsch := RetainedPdsch(L, p.pdsch))
    else if p.pduType == CsiRsPduType then bare.(csiRs := CopyPlain(p.csiRs))
    else if p.pduType == SsbPduType then bare.(ssb := RetainedSsb(L, p.ssb))
    else bare
  }

  lemma PullPduBodyPacked(L: DlLayouts, p: DlPdu, tail: seq<Byte>)
    requires LayoutsShaped(L) && PduPackable(L, p) && PduFits(L, p)
    ensures PullPduBody(L, BarePdu(p.pduType, PackedPduSize(L, p)), PackPduBody(L, p, tail))
            == Some(Parsed(RetainedPdu(L, p), tail))
  {
    if p.pduType == PdcchPduType {
      PullPdcchPacked(L, p.pdcch, tail);
    } else if p.pduType == PdschPduType {
      PullPdschPacked(L, p.pdsch, tail);
    } else if p.pduType == CsiRsPduType {
      PullCsiRsPacked(L, p.csiRs, tail);
    } else if p.pduType == SsbPduType {
      PullSsbPacked(L, p.ssb, tail);
    }
  }

  /** A packed PDU unpacks to what the receiver should hold, whatever its
      type, and the bytes after it are left alone. */
  lemma PullPduPacked(L: DlLayouts, p: DlPdu, tail: seq<Byte>)
    requires LayoutsShaped(L) && PduPackable(L, p) && PduFits(L, p)
    ensures PullPdu(L, PackPdu(L, p, tail)) == Some(Parsed(RetainedPdu(L, p), tail))
  {
    var body := PackPduBody(L, p, tail);
    PullPushed(W16, p.pduType, Push(W16, PackedPduSize(L, p), body));
    PullPushed(W16, PackedPduSize(L, p), body);
    PullPduBodyPacked(L, p, tail);
  }

  // ---------------------------------------------------------------
  // The list of PDUs
  // ---------------------------------------------------------------

  predicate PdusPackable(L: DlLayouts, ps: seq<DlPdu>)
    requires LayoutsShaped(L)
    decreases |ps|
  {
    |ps| == 0 || (PduPackable(L, ps[0]) && PdusPackable(L, ps[1..]))
  }

  predicate PdusFit(L: DlLayouts, ps: seq<DlPdu>)
    requires LayoutsShaped(L)
    ensures PdusFit(L, ps) ==> PdusPackable(L, ps)
    decreases |ps|
  {
    |ps| == 0 || (PduPackable(L, ps[0]) && PduFits(L, ps[0]) && PdusFit(L, ps[1..]))
  }

  function PackPdus(L: DlLayouts, ps: seq<DlPdu>, tail: seq<Byte>): seq<Byte>
    requires LayoutsShaped(L) && PdusPackable(L, ps)
    decreases |ps|
  {
    if |ps| == 0 then tail else PackPdu(L, ps[0], PackPdus(L, ps[1..], tail))
  }

  function PullPdus(L: DlLayouts, count: nat, s: seq<Byte>): (r: Option<Parsed<seq<DlPdu>>>)
    requires LayoutsShaped(L)
    ensures r.Some? ==> |r.value.value| == count && PdusPackable(L, r.value.value)
    decreases count
  {
    if count == 0 then Some(Parsed([], s))
    else
      match PullPdu(L, s)
      case None => None
      case Some(h) =>
        match PullPdus(L, count - 1, h.rest)
        case None => None
        case Some(t) =>
          assert ([h.value] + t.value)[1..] == t.value;
          Some(Parsed([h.value] + t.value, t.rest))
  }

  function RetainedPdus(L: DlLayouts, ps: seq<DlPdu>): (r: seq<DlPdu>)
    requires LayoutsShaped(L) && PdusPackable(L, ps)
    ensures |r| == |ps| && PdusPackable(L, r)
    decreases |ps|
  {
    if |ps| == 0 then []
    else
      var r := [RetainedPdu(L, ps[0])] + RetainedPdus(L, ps[1..]);
      assert r[1..] == RetainedPdus(L, ps[1..]);
      r
  }

  lemma PullPdusStep(L: DlLayouts, p: DlPdu, x: seq<Byte>, count: nat, t: Parsed<seq<DlPdu>>)
    requires LayoutsShaped(L) && PduPackable(L, p) && PduFits(L, p) && PullPdus(L, count, x) == Some(t)
    ensures PullPdus(L, count + 1, PackPdu(L, p, x)) == Some(Parsed([RetainedPdu(L, p)] + t.value, t.rest))
  {
    PullPduPacked(L, p, x);
  }

  lemma {:induction false} PullPdusPacked(L: DlLayouts, ps: seq<DlPdu>, tail: seq<Byte>)
    requires LayoutsShaped(L) && PdusFit(L, ps)
    ensures PullPdus(L, |ps|, PackPdus(L, ps, tail)) == Some(Parsed(RetainedPdus(L, ps), tail))
    decreases |ps|
  {
    if |ps| > 0 {
      var p, more := ps[0], ps[1..];
      assert ps == [p] + more;
      PullPdusPacked(L, more, tail);
      PullPdusStep(L, p, PackPdus(L, more, tail), |more|, Parsed(RetainedPdus(L, more), tail));
    }
  }

  // ---------------------------------------------------------------
  // UE groups: a count, then one PDU index per UE
  // ---------------------------------------------------------------

  /** The UE count of each group, as the count field records it. */
  function GroupSizes(gs: seq<seq<int>>): (ns: seq<nat>)
    ensures |ns| == |gs| && forall g :: 0 <= g < |gs| ==> ns[g] == |gs[g]|
  {
    seq(|gs|, g requires 0 <= g < |gs| => |gs[g]|)
  }

  /** Each group's count fits its byte and each index fits width `w`. */
  predicate GroupsFit(w: Width, gs: seq<seq<int>>)
    decreases |gs|
  {
    |gs| == 0 || (Fits(W8, |gs[0]|) && AllFit(Repeat(w, |gs[0]|), gs[0]) && GroupsFit(w, gs[1..]))
  }

  /** The packer's group loop, with the width of a PDU index as a
      parameter. */
  function PackGroups(w: Width, gs: seq<seq<int>>, tail: seq<Byte>): seq<Byte>
    decreases |gs|
  {
    if |gs| == 0 then tail else PackGroup(w, gs[0], PackGroups(w, gs[1..], tail))
  }

  function PackGroup(w: Width, g: seq<int>, tail: seq<Byte>): seq<Byte> {
    Push(W8, |g|, EncodeFields(Repeat(w, |g|), g, tail))
  }

  /** The unpacker's group loop: every PDU index is read as one byte. */
  function PullGroups(count: nat, s: seq<Byte>): (r: Option<Parsed<seq<seq<int>>>>)
    ensures r.Some? ==> |r.value.value| == count && GroupsFit(W8, r.value.value)
    decreases count
  {
    if count == 0 then Some(Parsed([], s))
    else
      match Pull(W8, s)
      case None => None
      case Some(n) =>
        match PullFields(Repeat(W8, n.value), n.rest)
        case None => None
        case Some(f) =>
          match PullGroups(count - 1, f.rest)
          case None => None
          case Some(t) =>
            var gs := [f.value] + t.value;
            assert gs[0] == f.value && gs[1..] == t.value;
            Some(Parsed(gs, t.rest))
  }

  /** One more packed group in front of groups that unpack. */
  lemma PullGroupsStep(g: seq<int>, x: seq<Byte>, count: nat, t: Parsed<seq<seq<int>>>)
    requires Fits(W8, |g|) && AllFit(Repeat(W8, |g|), g) && PullGroups(count, x) == Some(t)
    ensures PullGroups(count + 1, PackGroup(W8, g, x)) == Some(Parsed([g] + t.value, t.rest))
  {
    PullFieldsEncoded(Repeat(W8, |g|), g, x);
    PullPushed(W8, |g|, EncodeFields(Repeat(W8, |g|), g, x));
  }

  lemma {:induction false} PullGroupsPacked(gs: seq<seq<int>>, tail: seq<Byte>)
    requires GroupsFit(W8, gs)
    ensures PullGroups(|gs|, PackGroups(W8, gs, tail)) == Some(Parsed(gs, tail))
    decreases |gs|
  {
    if |gs| > 0 {
      var g, more := gs[0], gs[1..];
      assert gs == [g] + more;
      PullGroupsPacked(more, tail);
      PullGroupsStep(g, PackGroups(W8, more, tail), |more|, Parsed(more, tail));
    }
  }

  // ---------------------------------------------------------------
  // DL_TTI.request
  // ---------------------------------------------------------------

  /** The counts stay within the arrays they count and the PDUs they
      count can be packed. */
  predicate RequestPackable(L: DlLayouts, r: DlTtiRequest)
    requires LayoutsShaped(L)
  {
    r.nPdus <= |r.pdus| && PdusPackable(L, r.pdus[..r.nPdus])
    && r.nGroup <= |r.nUe| && r.nGroup <= |r.pduIdx|
    && forall g :: 0 <= g < r.nGroup ==> r.nUe[g] <= |r.pduIdx[g]|
  }

  /** The PDU indices each group lists, cut to its UE count. */
  function RequestGroups(L: DlLayouts, r: DlTtiRequest): (gs: seq<seq<int>>)
    requires LayoutsShaped(L) && RequestPackable(L, r)
    ensures |gs| == r.nGroup
    ensures forall g :: 0 <= g < r.nGroup ==> gs[g] == r.pduIdx[g][..r.nUe[g]]
  {
    seq(r.nGroup, g requires 0 <= g < r.nGroup => r.pduIdx[g][..r.nUe[g]])
  }

  /** Every value the request puts on the wire fits the width it is put
      with, when PDU indices are written with width `w`. */
  predicate RequestFits(L: DlLayouts, w: Width, r: DlTtiRequest)
    requires LayoutsShaped(L)
  {
    RequestPackable(L, r)
    && Fits(W16, r.sfn) && Fits(W16, r.slot) && Fits(W8, r.nPdus) && Fits(W8, r.nGroup)
    && PdusFit(L, r.pdus[..r.nPdus]) && GroupsFit(w, RequestGroups(L, r))
  }

  /** `pack_dl_tti_request` with the PDU index width as a parameter. */
  function PackRequestWith(L: DlLayouts, w: Width, r: DlTtiRequest, tail: seq<Byte>): seq<Byte>
    requires LayoutsShaped(L) && RequestPackable(L, r)
  {
    Push(W16, r.sfn, Push(W16, r.slot, Push(W8, r.nPdus, Push(W8, r.nGroup,
      PackPdus(L, r.pdus[..r.nPdus], PackGroups(w, RequestGroups(L, r), tail))))))
  }

  /** The packer as written: every PDU index goes out as four bytes. */
  function PackRequestAsWritten(L: DlLayouts, r: DlTtiRequest, tail: seq<Byte>): seq<Byte>
    requires LayoutsShaped(L) && RequestPackable(L, r)
  {
    PackRequestWith(L, W32, r, tail)
  }

  /** The packer with the PDU index written as the one byte the
      unpacker reads and the field holds. */
  function PackRequest(L: DlLayouts, r: DlTtiRequest, tail: seq<Byte>): seq<Byte>
    requires LayoutsShaped(L) && RequestPackable(L, r)
  {
    PackRequestWith(L, W8, r, tail)
  }

  function PullRequestBody(L: DlLayouts, id: int, len: int, sfn: int, slot: int, nPdus: nat, nGroup: nat,
                           s: seq<Byte>): (r: Option<Parsed<DlTtiRequest>>)
    requires LayoutsShaped(L)
    ensures r.Some? ==> RequestPackable(L, r.value.value)
  {
    match PullPdus(L, nPdus, s)
    case None => None
    case Some(ps) =>
      match PullGroups(nGroup, ps.rest)
      case None => None
      case Some(gs) =>
        var u := DlTtiRequest(id, len, sfn, slot, nPdus, nGroup, ps.value, GroupSizes(gs.value), gs.value);
        assert u.pdus[..u.nPdus] == ps.value;
        Some(Parsed(u, gs.rest))
  }

  /** `unpack_dl_tti_request`; the message id and length come from the
      header, which is read before. */
  function PullRequest(L: DlLayouts, id: int, len: int, s: seq<Byte>): (r: Option<Parsed<DlTtiRequest>>)
    requires LayoutsShaped(L)
    ensures r.Some? ==> RequestPackable(L, r.value.value)
  {
    match Pull(W16, s)
    case None => None
    case Some(sfn) =>
      match Pull(W16, sfn.rest)
      case None => None
      case Some(slot) =>
        match Pull(W8, slot.rest)
        case None => None
        case Some(np) =>
          match Pull(W8, np.rest)
          case None => None
          case Some(ng) => PullRequestBody(L, id, len, sfn.value, slot.value, np.value, ng.value, ng.rest)
  }

  /** What the receiver holds for a packed request: the header fields,
      the retained PDUs and the listed UEs of each group. */
  function RetainedRequest(L: DlLayouts, r: DlTtiRequest): (u: DlTtiRequest)
    requires LayoutsShaped(L) && RequestPackable(L, r)
    ensures RequestPackable(L, u)
    ensures u.nUe == r.nUe[..r.nGroup]
  {
    var gs := RequestGroups(L, r);
    var u := DlTtiRequest(r.messageId, r.messageLength, r.sfn, r.slot, r.nPdus, r.nGroup,
                          RetainedPdus(L, r.pdus[..r.nPdus]), GroupSizes(gs), gs);
    assert u.pdus[..u.nPdus] == u.pdus;
    u
  }

  lemma PullRequestBodyPacked(L: DlLayouts, r: DlTtiRequest, tail: seq<Byte>)
    requires LayoutsShaped(L) && RequestFits(L, W8, r)
    ensures PullRequestBody(L, r.messageId, r.messageLength, r.sfn, r.slot, r.nPdus, r.nGroup,
                            PackPdus(L, r.pdus[..r.nPdus], PackGroups(W8, RequestGroups(L, r), tail)))
            == Some(Parsed(RetainedRequest(L, r), tail))
  {
    var ps, gs := r.pdus[..r.nPdus], RequestGroups(L, r);
    var x := PackGroups(W8, gs, tail);
    PullGroupsPacked(gs, tail);
    PullPdusPacked(L, ps, x);
  }

  /** The four counts read back as written, whatever the index width. */
  lemma PullRequestHeader(L: DlLayouts, w: Width, r: DlTtiRequest, tail: seq<Byte>)
    requires LayoutsShaped(L) && RequestPackable(L, r)
    requires Fits(W16, r.sfn) && Fits(W16, r.slot) && Fits(W8, r.nPdus) && Fits(W8, r.nGroup)
    ensures PullRequest(L, r.messageId, r.messageLength, PackRequestWith(L, w, r, tail))
            == PullRequestBody(L, r.messageId, r.messageLength, r.sfn, r.slot, r.nPdus, r.nGroup,
                               PackPdus(L, r.pdus[..r.nPdus], PackGroups(w, RequestGroups(L, r), tail)))
  {
    var body := PackPdus(L, r.pdus[..r.nPdus], PackGroups(w, RequestGroups(L, r), tail));
    var b3 := Push(W8, r.nGroup, body);
    var b2 := Push(W8, r.nPdus, b3);
    var b1 := Push(W16, r.slot, b2);
    PullPushed(W8, r.nGroup, body);
    PullPushed(W8, r.nPdus, b3);
    PullPushed(W16, r.slot, b2);
    PullPushed(W16, r.sfn, b1);
  }

  /** The request unpacks to what the receiver should hold, and the bytes
      after it are left alone. */
  lemma PullRequestPacked(L: DlLayouts, r: DlTtiRequest, tail: seq<Byte>)
    requires LayoutsShaped(L) && RequestFits(L, W8, r)
    ensures PullRequest(L, r.messageId, r.messageLength, PackRequest(L, r, tail))
            == Some(Parsed(RetainedRequest(L, r), tail))
  {
    PullRequestHeader(L, W8, r, tail);
    PullRequestBodyPacked(L, r, tail);
  }

  // ---------------------------------------------------------------
  // The PDU index width as written
  // ---------------------------------------------------------------

  /** One group listing the UE of PDU 5, and no PDUs. */
  function OneGroupRequest(): (r: DlTtiRequest)
    ensures r.nGroup == 1 && r.nUe == [1] && r.pduIdx == [[5]]
  {
    DlTtiRequest(0, 0, 0, 0, 0, 1, [], [1], [[5]])
  }

  /** Written with four bytes and read with one, the index comes back as
      the high byte of its four, 0 in place of 5, and three of its bytes
      are left over after the request. */
  lemma AsWrittenLosesPduIdx(L: DlLayouts)
    requires LayoutsShaped(L)
    ensures RequestPackable(L, OneGroupRequest()) && RequestFits(L, W32, OneGroupRequest())
    ensures RetainedRequest(L, OneGroupRequest()).pduIdx == [[5]]
    ensures PullRequest(L, 0, 0, PackRequestAsWritten(L, OneGroupRequest(), []))
            == Some(Parsed(OneGroupRequest().(pduIdx := [[0]]), [0, 0, 5]))
  {
    var r := OneGroupRequest();
    OneGroupShape(L);
    AsWrittenBody(L);
    PullRequestHeader(L, W32, r, []);
  }

  /** After the four counts, the as-written body holds no PDU and the one
      group, whose index is read as 0. */
  lemma AsWrittenBody(L: DlLayouts)
    requires LayoutsShaped(L)
    ensures PullRequestBody(L, 0, 0, 0, 0, 0, 1, PackGroups(W32, [[5]], []))
            == Some(Parsed(DlTtiRequest(0, 0, 0, 0, 0, 1, [], [1], [[0]]), [0, 0, 5]))
  {
    GroupsAsWritten();
    AsWrittenBodyOf(L, PackGroups(W32, [[5]], []));
  }

  /** The same for any bytes whose group loop reads index 0. */
  lemma AsWrittenBodyOf(L: DlLayouts, x: seq<Byte>)
    requires LayoutsShaped(L) && PullGroups(1, x) == Some(Parsed([[0]], [0, 0, 5]))
    ensures PullRequestBody(L, 0, 0, 0, 0, 0, 1, x)
            == Some(Parsed(DlTtiRequest(0, 0, 0, 0, 0, 1, [], [1], [[0]]), [0, 0, 5]))
  {
    assert GroupSizes([[0]]) == [1];
    PullRequestBodyOf(L, 0, 0, 0, 0, 0, 1, x, Parsed([], x), Parsed([[0]], [0, 0, 5]));
  }

  /** The body is the PDUs and then the groups. */
  lemma PullRequestBodyOf(L: DlLayouts, id: int, len: int, sfn: int, slot: int, nPdus: nat, nGroup: nat,
                          s: seq<Byte>, ps: Parsed<seq<DlPdu>>, gs: Parsed<seq<seq<int>>>)
    requires LayoutsShaped(L) && PullPdus(L, nPdus, s) == Some(ps) && PullGroups(nGroup, ps.rest) == Some(gs)
    ensures PullRequestBody(L, id, len, sfn, slot, nPdus, nGroup, s)
            == Some(Parsed(DlTtiRequest(id, len, sfn, slot, nPdus, nGroup, ps.value, GroupSizes(gs.value), gs.value),
                           gs.rest))
  {
  }

  /** The one-group request is well formed, its index fits four bytes and
      one byte alike, and the receiver should hold index 5. */
  lemma OneGroupShape(L: DlLayouts)
    requires LayoutsShaped(L)
    ensures RequestPackable(L, OneGroupRequest())
    ensures OneGroupRequest().pdus[..0] == []
    ensures RequestGroups(L, OneGroupRequest()) == [[5]]
    ensures RequestFits(L, W32, OneGroupRequest()) && RequestFits(L, W8, OneGroupRequest())
    ensures RetainedRequest(L, OneGroupRequest()).pduIdx == [[5]]
    ensures PackPdus(L, [], PackGroups(W32, [[5]], [])) == PackGroups(W32, [[5]], [])
  {
    var r := OneGroupRequest();
    assert r.pdus[..r.nPdus] == [];
    var gs := RequestGroups(L, r);
    assert [5][..1] == [5];
    assert gs[0] == [5];
    assert gs == [[5]];
    assert Repeat(W32, 1) == [W32];
    assert Repeat(W8, 1) == [W8];
    assert GroupsFit(W32, gs[1..]);
    assert GroupsFit(W8, gs[1..]);
  }

  /** The group loop as written puts the count byte and then the four
      bytes of index 5. */
  lemma OneGroupAsWritten()
    ensures PackGroups(W32, [[5]], []) == Push(W8, 1, [0, 0, 0, 5])
  {
    assert [[5]][1..] == [];
    assert Repeat(W32, 1) == [W32];
    assert [5][1..] == [];
    assert Encode(W32, 5) == [0, 0, 0, 5];
  }

  /** The group loop alone: the count is read right, the index is not. */
  lemma GroupsAsWritten()
    ensures PullGroups(1, PackGroups(W32, [[5]], [])) == Some(Parsed([[0]], [0, 0, 5]))
  {
    var idx: seq<Byte> := [0, 0, 0, 5];
    OneGroupAsWritten();
    PullPushed(W8, 1, idx);
    HighByteRead();
    PullOneGroup(Push(W8, 1, idx), 1, idx, [0], [0, 0, 5]);
  }

  /** A single group is its count and the indices after it. */
  lemma PullOneGroup(s: seq<Byte>, n: nat, s1: seq<Byte>, f: seq<int>, s2: seq<Byte>)
    requires Pull(W8, s) == Some(Parsed(n as int, s1)) && PullFields(Repeat(W8, n), s1) == Some(Parsed(f, s2))
    ensures PullGroups(1, s) == Some(Parsed([f], s2))
  {
    assert PullGroups(0, s2) == Some(Parsed([], s2));
    assert [f] + [] == [f];
  }

  /** Reading one byte-wide index from the four bytes of 5 yields their
      first byte. */
  lemma HighByteRead()
    ensures PullFields(Repeat(W8, 1), [0, 0, 0, 5]) == Some(Parsed([0], [0, 0, 5]))
  {
    var s: seq<Byte> := [0, 0, 0, 5];
    assert Repeat(W8, 1) == [W8];
    assert s[..1] == [0] && s[1..] == [0, 0, 5];
    assert Decode(W8, [0]) == 0;
    assert Pull(W8, s) == Some(Parsed(0, [0, 0, 5]));
    assert [W8][1..] == [];
    assert PullFields([], [0, 0, 5]) == Some(Parsed([], [0, 0, 5]));
    assert [0] + [] == [0];
  }

  /** With the index written as one byte, every request whose values fit
      comes back as the receiver should hold it, the same one-group
      request included. */
  lemma CorrectedKeepsPduIdx(L: DlLayouts)
    requires LayoutsShaped(L)
    ensures RequestFits(L, W8, OneGroupRequest())
    ensures PullRequest(L, 0, 0, PackRequest(L, OneGroupRequest(), []))
            == Some(Parsed(RetainedRequest(L, OneGroupRequest()), []))
    ensures RetainedRequest(L, OneGroupRequest()).pduIdx == [[5]]
  {
    OneGroupShape(L);
    PullRequestPacked(L, OneGroupRequest(), []);
  }

}
