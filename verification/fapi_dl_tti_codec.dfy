/** The wire encoding of a FAPI DL_TTI.request body, as the P7 packer
    writes it and the unpacker reads it back.

    Each fixed part of a PDU interprets the `fields` of its record by a
    layout: the widths pushed, field by field, in wire order. The codec
    is stated for any table of layouts of the right shape; the widths
    the FAPI routines use are the constant `FapiLayouts`. Unpacking
    yields the "retained" form of what was packed: lists cut to their
    counts, gated-off field groups at zero, the parts the packer does not
    send at zero, and each PDU size equal to the packed length. */
module FapiDlTtiCodec {
  import opened Common
  import opened FapiWire
  import opened FapiDlTti
  import Arithmetic

  /** The widths of the fixed field groups of each PDU kind. */
  datatype DlLayouts = DlLayouts(
    dciHead: seq<Width>, dciPower: seq<Width>, pdcch: seq<Width>,
    pdschHead: seq<Width>, codeword: seq<Width>, pdschBody: seq<Width>, ptrs: seq<Width>,
    pdschPower: seq<Width>, cbg: seq<Width>, maintenance: seq<Width>,
    csiRs: seq<Width>, ssb: seq<Width>)

  const FapiLayouts := DlLayouts(
    // RNTI, scrambling id, scrambling RNTI, CCE index, aggregation level
    dciHead := [W16, W16, W16, W8, W8],
    // beta_PDCCH_1_0, powerControlOffsetSS, PayloadSizeBits
    dciPower := [W8, W8, W16],
    // BWP size and start, subcarrier spacing, cyclic prefix, start symbol,
    // duration, six frequency-domain resource bytes, CCE-REG mapping type,
    // REG bundle size, interleaver size, CORESET type, shift index,
    // precoder granularity
    pdcch := [W16, W16, W8, W8, W8, W8, W8, W8, W8, W8, W8, W8, W8, W8, W8, W8, W16, W8],
    // PDU bitmap, RNTI, PDU index, BWP size and start, subcarrier spacing,
    // cyclic prefix
    pdschHead := [W16, W16, W16, W16, W16, W8, W8],
    // target code rate, modulation order, MCS index, MCS table, RV, TB size
    codeword := [W16, W8, W8, W8, W8, W32],
    // scrambling id, layers, transmission scheme, reference point, DMRS
    // symbol positions, configuration type, scrambling id, SCID, CDM
    // groups, ports, resource allocation, 36-byte RB bitmap, RB start and
    // size, VRB-to-PRB mapping, start symbol, number of symbols
    pdschBody := [W16, W8, W8, W8, W16, W8, W16, W8, W8, W16, W8] + Repeat(W8, 36) + [W16, W16, W8, W8, W8],
    // PTRS port index, time and frequency density, RE offset, EPRE ratio
    ptrs := [W8, W8, W8, W8, W8],
    // power control offset and offset SS
    pdschPower := [W8, W8],
    // isLastCbPresent, isInlineTbCrc, dlTbCrc
    cbg := [W8, W8, W32],
    // LDPC base graph, TB size for limited buffer rate matching
    maintenance := [W8, W32],
    // BWP size and start, subcarrier spacing, cyclic prefix, start RB,
    // number of RBs, CSI type, row, frequency domain, first and second
    // symbol, CDM type, frequency density, scrambling id, power control
    // offset and offset SS
    csiRs := [W16, W16, W8, W8, W16, W16, W8, W8, W16, W8, W8, W8, W8, W16, W8, W8],
    // physical cell id, PSS power, SSB block index, subcarrier offset,
    // offset to point A, BCH payload flag
    ssb := [W16, W8, W8, W8, W16, W8])

  /** The DCI payload size is the last power field; the PDSCH bitmap is
      the first head field. */
  predicate LayoutsShaped(L: DlLayouts) {
    |L.dciPower| >= 1 && |L.pdschHead| >= 1
  }

  lemma FapiLayoutsShaped()
    ensures LayoutsShaped(FapiLayouts)
    ensures |FapiLayouts.pdschHead| + |FapiLayouts.pdschBody| + |FapiLayouts.ptrs| + |FapiLayouts.pdschPower|
            + |FapiLayouts.cbg| + |FapiLayouts.maintenance| == 71
  {
  }

  // ---------------------------------------------------------------
  // Precoding and beamforming block
  // ---------------------------------------------------------------

  function PackPrgs(prgs: seq<DlPrg>, n: nat, tail: seq<Byte>): seq<Byte>
    requires forall p :: 0 <= p < |prgs| ==> n <= |prgs[p].beamIdx|
  {
    if |prgs| == 0 then tail else PackPrg(prgs[0], n, PackPrgs(prgs[1..], n, tail))
  }

  /** One PRG: its PM index, then its first `n` beam indices. */
  function PackPrg(prg: DlPrg, n: nat, tail: seq<Byte>): seq<Byte>
    requires n <= |prg.beamIdx|
  {
    Push(W16, prg.pmIdx, EncodeFields(Repeat(W16, n), prg.beamIdx[..n], tail))
  }

  /** `pack_nr_tx_beamforming_pdu`: the counts, then for each of the
      first `numPrgs` PRGs its PM index and `digBfInterfaces` beam
      indices. */
  function PackBeamforming(b: DlBeamforming, tail: seq<Byte>): seq<Byte>
    requires BeamformingShaped(b)
  {
    Push(W16, b.numPrgs, Push(W16, b.prgSize, Push(W8, b.digBfInterfaces,
      PackPrgs(b.prgs[..b.numPrgs], b.digBfInterfaces, tail))))
  }

  function PullPrgs(count: nat, n: nat, s: seq<Byte>): (r: Option<Parsed<seq<DlPrg>>>)
    ensures r.Some? ==> |r.value.value| == count && forall p :: 0 <= p < count ==> |r.value.value[p].beamIdx| == n
    decreases count
  {
    if count == 0 then Some(Parsed([], s))
    else
      match Pull(W16, s)
      case None => None
      case Some(pm) =>
        match PullFields(Repeat(W16, n), pm.rest)
        case None => None
        case Some(ids) =>
          match PullPrgs(count - 1, n, ids.rest)
          case None => None
          case Some(more) => Some(Parsed([DlPrg(pm.value, ids.value)] + more.value, more.rest))
  }

  /** `unpack_nr_tx_beamforming_pdu`. */
  function PullBeamforming(s: seq<Byte>): (r: Option<Parsed<DlBeamforming>>)
    ensures r.Some? ==> BeamformingShaped(r.value.value)
  {
    match Pull(W16, s)
    case None => None
    case Some(np) =>
      match Pull(W16, np.rest)
      case None => None
      case Some(sz) =>
        match Pull(W8, sz.rest)
        case None => None
        case Some(nd) =>
          match PullPrgs(np.value, nd.value, nd.rest)
          case None => None
          case Some(ps) => Some(Parsed(DlBeamforming(np.value, sz.value, nd.value, ps.value), ps.rest))
  }

  predicate PrgFits(prg: DlPrg, n: nat) {
    n <= |prg.beamIdx| && Fits(W16, prg.pmIdx) && AllFit(Repeat(W16, n), prg.beamIdx[..n])
  }

  /** Every value of the block survives its conversion to the wire width. */
  predicate BeamformingFits(b: DlBeamforming) {
    BeamformingShaped(b) && Fits(W16, b.numPrgs) && Fits(W16, b.prgSize) && Fits(W8, b.digBfInterfaces)
    && forall p :: 0 <= p < b.numPrgs ==> PrgFits(b.prgs[p], b.digBfInterfaces)
  }

  function CopyPrgs(prgs: seq<DlPrg>, n: nat): (r: seq<DlPrg>)
    requires forall p :: 0 <= p < |prgs| ==> n <= |prgs[p].beamIdx|
    ensures |r| == |prgs| && forall p :: 0 <= p < |prgs| ==> r[p] == CopyPrg(prgs[p], n)
  {
    seq(|prgs|, p requires 0 <= p < |prgs| => CopyPrg(prgs[p], n))
  }

  /** Every PRG of a list fits the wire, `n` beam indices each. */
  predicate PrgsFit(prgs: seq<DlPrg>, n: nat)
    ensures PrgsFit(prgs, n) ==> forall p :: 0 <= p < |prgs| ==> n <= |prgs[p].beamIdx|
    decreases |prgs|
  {
    |prgs| == 0 || (PrgFits(prgs[0], n) && PrgsFit(prgs[1..], n))
  }

  lemma {:induction false} PrgsFitFromEach(prgs: seq<DlPrg>, n: nat)
    requires forall p :: 0 <= p < |prgs| ==> PrgFits(prgs[p], n)
    ensures PrgsFit(prgs, n)
    decreases |prgs|
  {
    if |prgs| > 0 {
      assert forall p :: 0 <= p < |prgs| - 1 ==> prgs[1..][p] == prgs[p + 1];
      PrgsFitFromEach(prgs[1..], n);
    }
  }

  lemma CopyPrgsCons(prgs: seq<DlPrg>, n: nat)
    requires |prgs| > 0 && PrgsFit(prgs, n)
    ensures CopyPrgs(prgs, n) == [CopyPrg(prgs[0], n)] + CopyPrgs(prgs[1..], n)
  {
  }

  /** One more packed PRG in front of a list that unpacks. */
  lemma PullPrgsStep(prg: DlPrg, n: nat, x: seq<Byte>, count: nat, t: Parsed<seq<DlPrg>>)
    requires PrgFits(prg, n) && PullPrgs(count, n, x) == Some(t)
    ensures PullPrgs(count + 1, n, PackPrg(prg, n, x)) == Some(Parsed([CopyPrg(prg, n)] + t.value, t.rest))
  {
    PullPushed(W16, prg.pmIdx, EncodeFields(Repeat(W16, n), prg.beamIdx[..n], x));
    PullFieldsEncoded(Repeat(W16, n), prg.beamIdx[..n], x);
  }

  lemma {:induction false} PullPrgsPacked(prgs: seq<DlPrg>, n: nat, tail: seq<Byte>)
    requires PrgsFit(prgs, n)
    ensures PullPrgs(|prgs|, n, PackPrgs(prgs, n, tail)) == Some(Parsed(CopyPrgs(prgs, n), tail))
    decreases |prgs|
  {
    if |prgs| > 0 {
      var prg, more := prgs[0], prgs[1..];
      assert prgs == [prg] + more;
      CopyPrgsCons(prgs, n);
      PullPrgsPacked(more, n, tail);
      PullPrgsStep(prg, n, PackPrgs(more, n, tail), |more|, Parsed(CopyPrgs(more, n), tail));
    }
  }

  /** Unpacking a packed block yields its copy: the PRG list and each
      beam index list cut to their counts. */
  lemma PullBeamformingPacked(b: DlBeamforming, tail: seq<Byte>)
    requires BeamformingFits(b)
    ensures PullBeamforming(PackBeamforming(b, tail)) == Some(Parsed(CopyBeamforming(b), tail))
  {
    var prgs := b.prgs[..b.numPrgs];
    var t3 := PackPrgs(prgs, b.digBfInterfaces, tail);
    var t2 := Push(W8, b.digBfInterfaces, t3);
    var t1 := Push(W16, b.prgSize, t2);
    PullPushed(W16, b.numPrgs, t1);
    PullPushed(W16, b.prgSize, t2);
    PullPushed(W8, b.digBfInterfaces, t3);
    PrgsFitFromEach(prgs, b.digBfInterfaces);
    PullPrgsPacked(prgs, b.digBfInterfaces, tail);
    assert CopyPrgs(prgs, b.digBfInterfaces) == CopyBeamforming(b).prgs;
  }

  // ---------------------------------------------------------------
  // PDCCH PDU and its DL DCIs
  // ---------------------------------------------------------------

  /** The DCI payload array has this many byte positions. */
  const DciPayloadCapacity := 8

  /** The DCI `fields`: head fields, power fields ending with the payload
      size in bits, then the payload bytes. */
  function PayloadStart(L: DlLayouts): nat {
    |L.dciHead| + |L.dciPower|
  }

  /** The number of payload bytes on the wire: the bit count, as the
      16-bit field holds it, rounded up to whole bytes. */
  function PayloadWireBytes(bits: int): nat {
    BytesForBits(bits % 0x1_0000)
  }

  /** Whole bytes needed for `b` bits. */
  function BytesForBits(b: nat): (n: nat)
  {
    if b == 0 then 0 else if b <= 8 then 1 else 1 + BytesForBits(b - 8)
  }

  predicate DciShaped(L: DlLayouts, d: Dci) {
    |d.fields| == PayloadStart(L) + DciPayloadCapacity && BeamformingShaped(d.beamforming)
  }

  function DciHead(L: DlLayouts, d: Dci): (hd: seq<int>)
    requires DciShaped(L, d)
    ensures |hd| == |L.dciHead|
  {
    d.fields[..|L.dciHead|]
  }

  function DciPower(L: DlLayouts, d: Dci): (pw: seq<int>)
    requires DciShaped(L, d)
    ensures |pw| == |L.dciPower|
  {
    d.fields[|L.dciHead|..PayloadStart(L)]
  }

  /** The payload length the power fields announce. */
  function DciWireBytes(L: DlLayouts, d: Dci): nat
    requires LayoutsShaped(L) && DciShaped(L, d)
  {
    PayloadWireBytes(DciPower(L, d)[|L.dciPower| - 1])
  }

  /** The payload occupies no more bytes than its array holds; a longer
      one makes the packer fail. */
  predicate DciPackable(L: DlLayouts, d: Dci)
    requires LayoutsShaped(L)
  {
    DciShaped(L, d) && DciWireBytes(L, d) <= DciPayloadCapacity
  }

  /** The payload bytes that go on the wire. */
  function DciPayload(L: DlLayouts, d: Dci): (pl: seq<int>)
    requires LayoutsShaped(L) && DciPackable(L, d)
    ensures |pl| == DciWireBytes(L, d)
  {
    d.fields[PayloadStart(L)..PayloadStart(L) + DciWireBytes(L, d)]
  }

  function PackDci(L: DlLayouts, d: Dci, tail: seq<Byte>): seq<Byte>
    requires LayoutsShaped(L) && DciPackable(L, d)
  {
    EncodeFields(L.dciHead, DciHead(L, d), PackBeamforming(d.beamforming,
      EncodeFields(L.dciPower, DciPower(L, d), PushBytes(DciPayload(L, d), tail))))
  }

  function PullDci(L: DlLayouts, s: seq<Byte>): (r: Option<Parsed<Dci>>)
    requires LayoutsShaped(L)
    ensures r.Some? ==> DciPackable(L, r.value.value)
  {
    match PullFields(L.dciHead, s)
    case None => None
    case Some(h) =>
      match PullBeamforming(h.rest)
      case None => None
      case Some(bf) => PullDciPayload(L, h.value, bf.value, bf.rest)
  }

  /** The DCI record built from its parts, the payload padded with zeros. */
  function DciOfParts(L: DlLayouts, hd: seq<int>, bf: DlBeamforming, pw: seq<int>, pl: seq<int>): (d: Dci)
    requires LayoutsShaped(L) && |hd| == |L.dciHead| && BeamformingShaped(bf) && |pw| == |L.dciPower|
    requires |pl| == PayloadWireBytes(pw[|L.dciPower| - 1]) <= DciPayloadCapacity
    ensures DciPackable(L, d) && DciHead(L, d) == hd && DciPower(L, d) == pw && DciPayload(L, d) == pl
  {
    var d := Dci(hd + pw + pl + Zeros(DciPayloadCapacity - |pl|), bf);
    assert DciHead(L, d) == hd;
    assert DciPower(L, d) == pw;
    d
  }

  /** The DCI after its beamforming block: the power fields, then as many
      payload bytes as the bit count asks for, at most the array size. */
  function PullDciPayload(L: DlLayouts, hd: seq<int>, bf: DlBeamforming, s: seq<Byte>): (r: Option<Parsed<Dci>>)
    requires LayoutsShaped(L) && |hd| == |L.dciHead| && BeamformingShaped(bf)
    ensures r.Some? ==> DciPackable(L, r.value.value)
  {
    match PullFields(L.dciPower, s)
    case None => None
    case Some(pw) =>
      var k := PayloadWireBytes(pw.value[|L.dciPower| - 1]);
      if k > DciPayloadCapacity then None
      else
        match PullBytes(k, pw.rest)
        case None => None
        case Some(pl) => Some(Parsed(DciOfParts(L, hd, bf, pw.value, pl.value), pl.rest))
  }

  predicate DciFits(L: DlLayouts, d: Dci)
    requires LayoutsShaped(L)
  {
    DciPackable(L, d)
    && AllFit(L.dciHead, DciHead(L, d)) && AllFit(L.dciPower, DciPower(L, d))
    && AllBytes(DciPayload(L, d)) && BeamformingFits(d.beamforming)
  }

  /** What the receiver holds: the payload bytes beyond the wire length
      are zero. */
  function RetainedDci(L: DlLayouts, d: Dci): (r: Dci)
    requires LayoutsShaped(L) && DciPackable(L, d)
    ensures DciPackable(L, r)
  {
    DciOfParts(L, DciHead(L, d), CopyBeamforming(d.beamforming), DciPower(L, d), DciPayload(L, d))
  }

  /** The retained DCI agrees with the sent one up to the end of the wire
      payload and is zero after it. */
  lemma RetainedDciAgrees(L: DlLayouts, d: Dci)
    requires LayoutsShaped(L) && DciPackable(L, d)
    ensures var n := PayloadStart(L) + DciWireBytes(L, d);
      RetainedDci(L, d).fields[..n] == d.fields[..n]
      && RetainedDci(L, d).fields[n..] == Zeros(DciPayloadCapacity - DciWireBytes(L, d))
  {
    var h, s, n := |L.dciHead|, PayloadStart(L), PayloadStart(L) + DciWireBytes(L, d);
    SliceJoin(d.fields, h, s, n);
    var r := RetainedDci(L, d);
    assert r.fields == DciHead(L, d) + DciPower(L, d) + DciPayload(L, d) + Zeros(DciPayloadCapacity - DciWireBytes(L, d));
  }

  lemma PullDciPayloadParts(L: DlLayouts, hd: seq<int>, bf: DlBeamforming, pw: seq<int>, pl: seq<int>, tail: seq<Byte>)
    requires LayoutsShaped(L) && |hd| == |L.dciHead| && BeamformingShaped(bf) && AllFit(L.dciPower, pw)
    requires |pl| == PayloadWireBytes(pw[|L.dciPower| - 1]) <= DciPayloadCapacity && AllBytes(pl)
    ensures PullDciPayload(L, hd, bf, EncodeFields(L.dciPower, pw, PushBytes(pl, tail)))
         == Some(Parsed(DciOfParts(L, hd, bf, pw, pl), tail))
  {
    PullFieldsEncoded(L.dciPower, pw, PushBytes(pl, tail));
    PullPushedBytes(pl, tail);
  }

  /** Unpacking a packed DCI yields its retained form. */
  lemma PullDciPacked(L: DlLayouts, d: Dci, tail: seq<Byte>)
    requires LayoutsShaped(L) && DciFits(L, d)
    ensures PullDci(L, PackDci(L, d, tail)) == Some(Parsed(RetainedDci(L, d), tail))
  {
    PullDciParts(L, DciHead(L, d), d.beamforming, DciPower(L, d), DciPayload(L, d), tail);
  }

  /** The same over the DCI's parts. */
  lemma PullDciParts(L: DlLayouts, hd: seq<int>, bf: DlBeamforming, pw: seq<int>, pl: seq<int>, tail: seq<Byte>)
    requires LayoutsShaped(L) && AllFit(L.dciHead, hd) && BeamformingFits(bf) && AllFit(L.dciPower, pw)
    requires |pl| == PayloadWireBytes(pw[|L.dciPower| - 1]) <= DciPayloadCapacity && AllBytes(pl)
    ensures PullDci(L, EncodeFields(L.dciHead, hd, PackBeamforming(bf, EncodeFields(L.dciPower, pw, PushBytes(pl, tail)))))
         == Some(Parsed(DciOfParts(L, hd, CopyBeamforming(bf), pw, pl), tail))
  {
    var t2 := EncodeFields(L.dciPower, pw, PushBytes(pl, tail));
    PullFieldsEncoded(L.dciHead, hd, PackBeamforming(bf, t2));
    PullBeamformingPacked(bf, t2);
    PullDciPayloadParts(L, hd, CopyBeamforming(bf), pw, pl, tail);
  }

  /** Every DCI of a list can be packed. */
  predicate DcisPackable(L: DlLayouts, ds: seq<Dci>)
    requires LayoutsShaped(L)
    decreases |ds|
  {
    |ds| == 0 || (DciPackable(L, ds[0]) && DcisPackable(L, ds[1..]))
  }

  /** Every DCI of a list fits its wire fields. */
  predicate DcisFit(L: DlLayouts, ds: seq<Dci>)
    requires LayoutsShaped(L)
    ensures DcisFit(L, ds) ==> DcisPackable(L, ds)
    decreases |ds|
  {
    |ds| == 0 || (DciFits(L, ds[0]) && DcisFit(L, ds[1..]))
  }

  lemma {:induction false} DcisPackableAt(L: DlLayouts, ds: seq<Dci>, i: nat)
    requires LayoutsShaped(L) && DcisPackable(L, ds) && i < |ds|
    ensures DciPackable(L, ds[i])
    decreases i
  {
    if i > 0 {
      DcisPackableAt(L, ds[1..], i - 1);
    }
  }

  function PackDcis(L: DlLayouts, ds: seq<Dci>, tail: seq<Byte>): seq<Byte>
    requires LayoutsShaped(L) && DcisPackable(L, ds)
    decreases |ds|
  {
    if |ds| == 0 then tail else PackDci(L, ds[0], PackDcis(L, ds[1..], tail))
  }

  function PullDcis(L: DlLayouts, count: nat, s: seq<Byte>): (r: Option<Parsed<seq<Dci>>>)
    requires LayoutsShaped(L)
    ensures r.Some? ==> |r.value.value| == count && DcisPackable(L, r.value.value)
    decreases count
  {
    if count == 0 then Some(Parsed([], s))
    else
      match PullDci(L, s)
      case None => None
      case Some(h) =>
        match PullDcis(L, count - 1, h.rest)
        case None => None
        case Some(t) =>
          assert ([h.value] + t.value)[1..] == t.value;
          Some(Parsed([h.value] + t.value, t.rest))
  }

  function RetainedDcis(L: DlLayouts, ds: seq<Dci>): (r: seq<Dci>)
    requires LayoutsShaped(L) && DcisPackable(L, ds)
    ensures |r| == |ds| && DcisPackable(L, r)
    decreases |ds|
  {
    if |ds| == 0 then []
    else
      var r := [RetainedDci(L, ds[0])] + RetainedDcis(L, ds[1..]);
      assert r[1..] == RetainedDcis(L, ds[1..]);
      r
  }

  lemma {:induction false} RetainedDcisAt(L: DlLayouts, ds: seq<Dci>, i: nat)
    requires LayoutsShaped(L) && DcisPackable(L, ds) && i < |ds|
    ensures DcisPackable(L, ds) && DciPackable(L, ds[i]) && RetainedDcis(L, ds)[i] == RetainedDci(L, ds[i])
    decreases i
  {
    DcisPackableAt(L, ds, i);
    if i > 0 {
      RetainedDcisAt(L, ds[1..], i - 1);
    }
  }

  /** One more packed DCI in front of a list that unpacks. */
  lemma PullDcisStep(L: DlLayouts, d: Dci, x: seq<Byte>, count: nat, t: Parsed<seq<Dci>>)
    requires LayoutsShaped(L) && DciFits(L, d) && PullDcis(L, count, x) == Some(t)
    ensures PullDcis(L, count + 1, PackDci(L, d, x)) == Some(Parsed([RetainedDci(L, d)] + t.value, t.rest))
  {
    PullDciPacked(L, d, x);
  }

  lemma {:induction false} PullDcisPacked(L: DlLayouts, ds: seq<Dci>, tail: seq<Byte>)
    requires LayoutsShaped(L) && DcisFit(L, ds)
    ensures PullDcis(L, |ds|, PackDcis(L, ds, tail)) == Some(Parsed(RetainedDcis(L, ds), tail))
    decreases |ds|
  {
    if |ds| > 0 {
      PullDcisPacked(L, ds[1..], tail);
      PullDcisStep(L, ds[0], PackDcis(L, ds[1..], tail), |ds| - 1, Parsed(RetainedDcis(L, ds[1..]), tail));
    }
  }

  predicate PdcchWellFormed(L: DlLayouts, p: PdcchPdu) {
    |p.fields| == |L.pdcch| && p.numDlDci <= |p.dci|
  }

  predicate PdcchPackable(L: DlLayouts, p: PdcchPdu)
    requires LayoutsShaped(L)
  {
    PdcchWellFormed(L, p) && DcisPackable(L, p.dci[..p.numDlDci])
  }

  /** `pack_dl_tti_pdcch_pdu_rel15_value`. */
  function PackPdcch(L: DlLayouts, p: PdcchPdu, tail: seq<Byte>): seq<Byte>
    requires LayoutsShaped(L) && PdcchPackable(L, p)
  {
    EncodeFields(L.pdcch, p.fields, Push(W16, p.numDlDci, PackDcis(L, p.dci[..p.numDlDci], tail)))
  }

  /** `unpack_dl_tti_pdcch_pdu_rel15_value`. */
  function PullPdcch(L: DlLayouts, s: seq<Byte>): (r: Option<Parsed<PdcchPdu>>)
    requires LayoutsShaped(L)
    ensures r.Some? ==> PdcchPackable(L, r.value.value)
  {
    match PullFields(L.pdcch, s)
    case None => None
    case Some(f) =>
      match Pull(W16, f.rest)
      case None => None
      case Some(n) =>
        match PullDcis(L, n.value, n.rest)
        case None => None
        case Some(ds) =>
          assert ds.value[..n.value] == ds.value;
          Some(Parsed(PdcchPdu(f.value, n.value, ds.value), ds.rest))
  }

  predicate PdcchFits(L: DlLayouts, p: PdcchPdu)
    requires LayoutsShaped(L)
  {
    PdcchPackable(L, p) && AllFit(L.pdcch, p.fields) && Fits(W16, p.numDlDci)
    && DcisFit(L, p.dci[..p.numDlDci])
  }

  function RetainedPdcch(L: DlLayouts, p: PdcchPdu): (r: PdcchPdu)
    requires LayoutsShaped(L) && PdcchPackable(L, p)
    ensures PdcchShaped(r) && PdcchPackable(L, r)
  {
    var ds := RetainedDcis(L, p.dci[..p.numDlDci]);
    forall i | 0 <= i < |ds|
      ensures BeamformingShaped(ds[i].beamforming)
    {
      DcisPackableAt(L, ds, i);
    }
    assert ds[..p.numDlDci] == ds;
    PdcchPdu(p.fields, p.numDlDci, ds)
  }

  lemma PullPdcchPacked(L: DlLayouts, p: PdcchPdu, tail: seq<Byte>)
    requires LayoutsShaped(L) && PdcchFits(L, p)
    ensures PullPdcch(L, PackPdcch(L, p, tail)) == Some(Parsed(RetainedPdcch(L, p), tail))
  {
    var ds := p.dci[..p.numDlDci];
    var t2 := PackDcis(L, ds, tail);
    var t1 := Push(W16, p.numDlDci, t2);
    PullFieldsEncoded(L.pdcch, p.fields, t1);
    PullPushed(W16, p.numDlDci, t2);
    PullDcisPacked(L, ds, tail);
  }

  // ---------------------------------------------------------------
  // PDSCH PDU
  // ---------------------------------------------------------------

  /** The PDSCH `fields` hold the head, body, PTRS, power, CBG and
      maintenance groups one after another; these are their offsets. */
  function PtrsStart(L: DlLayouts): nat { |L.pdschHead| + |L.pdschBody| }
  function PdschPowerStart(L: DlLayouts): nat { PtrsStart(L) + |L.ptrs| }
  function CbgStart(L: DlLayouts): nat { PdschPowerStart(L) + |L.pdschPower| }
  function MaintenanceStart(L: DlLayouts): nat { CbgStart(L) + |L.cbg| }
  function PdschFieldCount(L: DlLayouts): nat { MaintenanceStart(L) + |L.maintenance| }

  /** Bit 0 of the PDU bitmap announces the PTRS group, bit 1 the CBG
      group. */
  predicate PtrsPresent(f: seq<int>)
    requires |f| > 0
  {
    BitSet(f[0] % 0x1_0000, 0)
  }

  predicate CbgPresent(f: seq<int>)
    requires |f| > 0
  {
    BitSet(f[0] % 0x1_0000, 1)
  }

  predicate PdschWellFormed(L: DlLayouts, p: PdschPdu) {
    |p.fields| == PdschFieldCount(L) && p.nrOfCodewords <= |p.codewords|
    && (forall c :: 0 <= c < p.nrOfCodewords ==> |p.codewords[c]| == |L.codeword|)
    && BeamformingShaped(p.beamforming)
  }

  // The field groups of a PDSCH PDU.

  function PdschHead(L: DlLayouts, p: PdschPdu): (r: seq<int>)
    requires PdschWellFormed(L, p)
    ensures |r| == |L.pdschHead|
  {
    p.fields[..|L.pdschHead|]
  }

  function PdschBody(L: DlLayouts, p: PdschPdu): (r: seq<int>)
    requires PdschWellFormed(L, p)
    ensures |r| == |L.pdschBody|
  {
    p.fields[|L.pdschHead|..PtrsStart(L)]
  }

  function PdschPtrs(L: DlLayouts, p: PdschPdu): (r: seq<int>)
    requires PdschWellFormed(L, p)
    ensures |r| == |L.ptrs|
  {
    p.fields[PtrsStart(L)..PdschPowerStart(L)]
  }

  function PdschPower(L: DlLayouts, p: PdschPdu): (r: seq<int>)
    requires PdschWellFormed(L, p)
    ensures |r| == |L.pdschPower|
  {
    p.fields[PdschPowerStart(L)..CbgStart(L)]
  }

  function PdschCbg(L: DlLayouts, p: PdschPdu): (r: seq<int>)
    requires PdschWellFormed(L, p)
    ensures |r| == |L.cbg|
  {
    p.fields[CbgStart(L)..MaintenanceStart(L)]
  }

  function PdschMaintenance(L: DlLayouts, p: PdschPdu): (r: seq<int>)
    requires PdschWellFormed(L, p)
    ensures |r| == |L.maintenance|
  {
    p.fields[MaintenanceStart(L)..]
  }

  /** The groups of the PDU after the codewords and the body, ending in
      `tail`: PTRS and CBG only where the bitmap in `hd` announces them. */
  function PackPdschRest(L: DlLayouts, hd: seq<int>, ptrs: seq<int>, bf: DlBeamforming, pw: seq<int>,
                         cbg: seq<int>, mt: seq<int>, tail: seq<Byte>): seq<Byte>
    requires |hd| > 0 && |ptrs| == |L.ptrs| && BeamformingShaped(bf) && |pw| == |L.pdschPower|
    requires |cbg| == |L.cbg| && |mt| == |L.maintenance|
  {
    EncodeGated(PtrsPresent(hd), L.ptrs, ptrs, PackBeamforming(bf,
      EncodeFields(L.pdschPower, pw,
      EncodeGated(CbgPresent(hd), L.cbg, cbg,
      EncodeFields(L.maintenance, mt, tail)))))
  }

  /** `pack_dl_tti_pdsch_pdu_rel15_value`. */
  function PackPdsch(L: DlLayouts, p: PdschPdu, tail: seq<Byte>): seq<Byte>
    requires LayoutsShaped(L) && PdschWellFormed(L, p)
  {
    var hd := PdschHead(L, p);
    EncodeFields(L.pdschHead, hd, Push(W8, p.nrOfCodewords,
      EncodeRecords(L.codeword, p.codewords[..p.nrOfCodewords],
      EncodeFields(L.pdschBody, PdschBody(L, p),
      PackPdschRest(L, hd, PdschPtrs(L, p), p.beamforming, PdschPower(L, p), PdschCbg(L, p),
                    PdschMaintenance(L, p), tail)))))
  }

  /** The PDSCH record built from its field groups. */
  function PdschOfParts(L: DlLayouts, hd: seq<int>, n: nat, cw: seq<seq<int>>, body: seq<int>, ptrs: seq<int>,
                        bf: DlBeamforming, pw: seq<int>, cbg: seq<int>, mt: seq<int>): (p: PdschPdu)
    requires |hd| == |L.pdschHead| && |body| == |L.pdschBody| && |ptrs| == |L.ptrs| && |pw| == |L.pdschPower|
    requires |cbg| == |L.cbg| && |mt| == |L.maintenance|
    requires |cw| == n && (forall c :: 0 <= c < n ==> |cw[c]| == |L.codeword|) && BeamformingShaped(bf)
    ensures PdschWellFormed(L, p) && PdschHead(L, p) == hd && PdschBody(L, p) == body && PdschPtrs(L, p) == ptrs
    ensures PdschPower(L, p) == pw && PdschCbg(L, p) == cbg && PdschMaintenance(L, p) == mt
    ensures p.nrOfCodewords == n && p.codewords == cw && p.beamforming == bf
  {
    var p := PdschPdu(hd + body + ptrs + pw + cbg + mt, n, cw, bf);
    assert PdschHead(L, p) == hd;
    assert PdschBody(L, p) == body;
    assert PdschPtrs(L, p) == ptrs;
    assert PdschPower(L, p) == pw;
    assert PdschCbg(L, p) == cbg;
    p
  }

  /** `unpack_dl_tti_pdsch_pdu_rel15_value`: the gates are read from the
      bitmap just pulled. */
  function PullPdsch(L: DlLayouts, s: seq<Byte>): (r: Option<Parsed<PdschPdu>>)
    requires LayoutsShaped(L)
    ensures r.Some? ==> PdschWellFormed(L, r.value.value)
  {
    match PullFields(L.pdschHead, s)
    case None => None
    case Some(h) =>
      match Pull(W8, h.rest)
      case None => None
      case Some(n) =>
        match PullRecords(L.codeword, n.value, n.rest)
        case None => None
        case Some(cw) =>
          match PullFields(L.pdschBody, cw.rest)
          case None => None
          case Some(body) => PullPdschRest(L, h.value, n.value, cw.value, body.value, body.rest)
  }

  function PullPdschRest(L: DlLayouts, hd: seq<int>, n: nat, cw: seq<seq<int>>, body: seq<int>, s: seq<Byte>)
    : (r: Option<Parsed<PdschPdu>>)
    requires |hd| == |L.pdschHead| > 0 && |body| == |L.pdschBody|
    requires |cw| == n && forall c :: 0 <= c < n ==> |cw[c]| == |L.codeword|
    ensures r.Some? ==> PdschWellFormed(L, r.value.value)
  {
    match PullGated(PtrsPresent(hd), L.ptrs, s)
    case None => None
    case Some(ptrs) =>
      match PullBeamforming(ptrs.rest)
      case None => None
      case Some(bf) =>
        match PullFields(L.pdschPower, bf.rest)
        case None => None
        case Some(pw) =>
          match PullGated(CbgPresent(hd), L.cbg, pw.rest)
          case None => None
          case Some(cbg) =>
            match PullFields(L.maintenance, cbg.rest)
            case None => None
            case Some(mt) =>
              Some(Parsed(PdschOfParts(L, hd, n, cw, body, ptrs.value, bf.value, pw.value, cbg.value, mt.value), mt.rest))
  }

  predicate PdschFits(L: DlLayouts, p: PdschPdu)
    requires LayoutsShaped(L)
  {
    PdschWellFormed(L, p)
    && AllFit(L.pdschHead, PdschHead(L, p)) && AllFit(L.pdschBody, PdschBody(L, p))
    && AllFit(L.ptrs, PdschPtrs(L, p)) && AllFit(L.pdschPower, PdschPower(L, p))
    && AllFit(L.cbg, PdschCbg(L, p)) && AllFit(L.maintenance, PdschMaintenance(L, p))
    && Fits(W8, p.nrOfCodewords)
    && (forall c :: 0 <= c < p.nrOfCodewords ==> AllFit(L.codeword, p.codewords[c]))
    && BeamformingFits(p.beamforming)
  }

  /** What the receiver holds: a group the bitmap leaves out stays at
      zero, and the lists are cut to their counts. */
  function RetainedPdsch(L: DlLayouts, p: PdschPdu): (r: PdschPdu)
    requires LayoutsShaped(L) && PdschWellFormed(L, p)
    ensures PdschShaped(r) && PdschWellFormed(L, r)
  {
    var hd := PdschHead(L, p);
    PdschOfParts(L, hd, p.nrOfCodewords, p.codewords[..p.nrOfCodewords], PdschBody(L, p),
                 Gated(PtrsPresent(hd), PdschPtrs(L, p)), CopyBeamforming(p.beamforming), PdschPower(L, p),
                 Gated(CbgPresent(hd), PdschCbg(L, p)), PdschMaintenance(L, p))
  }

  lemma PullPdschRestPacked(L: DlLayouts, hd: seq<int>, n: nat, cw: seq<seq<int>>, body: seq<int>, ptrs: seq<int>,
                            bf: DlBeamforming, pw: seq<int>, cbg: seq<int>, mt: seq<int>, tail: seq<Byte>)
    requires |hd| == |L.pdschHead| > 0 && |body| == |L.pdschBody|
    requires |cw| == n && forall c :: 0 <= c < n ==> |cw[c]| == |L.codeword|
    requires AllFit(L.ptrs, ptrs) && BeamformingFits(bf) && AllFit(L.pdschPower, pw)
    requires AllFit(L.cbg, cbg) && AllFit(L.maintenance, mt)
    ensures PullPdschRest(L, hd, n, cw, body, PackPdschRest(L, hd, ptrs, bf, pw, cbg, mt, tail))
         == Some(Parsed(PdschOfParts(L, hd, n, cw, body, Gated(PtrsPresent(hd), ptrs), CopyBeamforming(bf), pw,
                                     Gated(CbgPresent(hd), cbg), mt), tail))
  {
    var t3 := EncodeFields(L.maintenance, mt, tail);
    var t2 := EncodeGated(CbgPresent(hd), L.cbg, cbg, t3);
    var t1 := EncodeFields(L.pdschPower, pw, t2);
    PullGatedEncoded(PtrsPresent(hd), L.ptrs, ptrs, PackBeamforming(bf, t1));
    PullBeamformingPacked(bf, t1);
    PullFieldsEncoded(L.pdschPower, pw, t2);
    PullGatedEncoded(CbgPresent(hd), L.cbg, cbg, t3);
    PullFieldsEncoded(L.maintenance, mt, tail);
  }

  /** Unpacking a packed PDSCH PDU yields its retained form. */
  lemma PullPdschPacked(L: DlLayouts, p: PdschPdu, tail: seq<Byte>)
    requires LayoutsShaped(L) && PdschFits(L, p)
    ensures PullPdsch(L, PackPdsch(L, p, tail)) == Some(Parsed(RetainedPdsch(L, p), tail))
  {
    var hd, cw := PdschHead(L, p), p.codewords[..p.nrOfCodewords];
    var t3 := PackPdschRest(L, hd, PdschPtrs(L, p), p.beamforming, PdschPower(L, p), PdschCbg(L, p),
                            PdschMaintenance(L, p), tail);
    PullPdschRestPacked(L, hd, p.nrOfCodewords, cw, PdschBody(L, p), PdschPtrs(L, p), p.beamforming,
                        PdschPower(L, p), PdschCbg(L, p), PdschMaintenance(L, p), tail);
    PullPdschFront(L, hd, p.nrOfCodewords, cw, PdschBody(L, p), t3, Parsed(RetainedPdsch(L, p), tail));
  }

  /** The fields before the PTRS group are read back as written, and the
      rest is left to PullPdschRest. */
  lemma PullPdschFront(L: DlLayouts, hd: seq<int>, n: nat, cw: seq<seq<int>>, body: seq<int>, rest: seq<Byte>,
                       res: Parsed<PdschPdu>)
    requires LayoutsShaped(L) && AllFit(L.pdschHead, hd) && Fits(W8, n) && AllFit(L.pdschBody, body)
    requires |cw| == n && forall c :: 0 <= c < n ==> AllFit(L.codeword, cw[c])
    requires |hd| == |L.pdschHead| > 0 && |body| == |L.pdschBody|
    requires forall c :: 0 <= c < n ==> |cw[c]| == |L.codeword|
    requires PullPdschRest(L, hd, n, cw, body, rest) == Some(res)
    ensures PullPdsch(L, EncodeFields(L.pdschHead, hd, Push(W8, n,
              EncodeRecords(L.codeword, cw, EncodeFields(L.pdschBody, body, rest))))) == Some(res)
  {
    var t2 := EncodeFields(L.pdschBody, body, rest);
    var t1 := EncodeRecords(L.codeword, cw, t2);
    PullFieldsEncoded(L.pdschHead, hd, Push(W8, n, t1));
    PullPushed(W8, n, t1);
    PullRecordsEncoded(L.codeword, cw, t2);
    PullFieldsEncoded(L.pdschBody, body, rest);
  }

  // ---------------------------------------------------------------
  // CSI-RS and SSB PDUs
  // ---------------------------------------------------------------

  predicate CsiRsWellFormed(L: DlLayouts, p: PlainPdu) {
    |p.fields| == |L.csiRs| && BeamformingShaped(p.beamforming)
  }

  /** `pack_dl_tti_csi_rs_pdu_rel15_value`. */
  function PackCsiRs(L: DlLayouts, p: PlainPdu, tail: seq<Byte>): seq<Byte>
    requires CsiRsWellFormed(L, p)
  {
    EncodeFields(L.csiRs, p.fields, PackBeamforming(p.beamforming, tail))
  }

  /** `unpack_dl_tti_csi_rs_pdu_rel15_value`. */
  function PullCsiRs(L: DlLayouts, s: seq<Byte>): (r: Option<Parsed<PlainPdu>>)
    ensures r.Some? ==> CsiRsWellFormed(L, r.value.value)
  {
    match PullFields(L.csiRs, s)
    case None => None
    case Some(f) =>
      match PullBeamforming(f.rest)
      case None => None
      case Some(bf) => Some(Parsed(PlainPdu(f.value, bf.value), bf.rest))
  }

  predicate CsiRsFits(L: DlLayouts, p: PlainPdu) {
    CsiRsWellFormed(L, p) && AllFit(L.csiRs, p.fields) && BeamformingFits(p.beamforming)
  }

  lemma PullCsiRsPacked(L: DlLayouts, p: PlainPdu, tail: seq<Byte>)
    requires CsiRsFits(L, p)
    ensures PullCsiRs(L, PackCsiRs(L, p, tail)) == Some(Parsed(CopyPlain(p), tail))
  {
    PullFieldsEncoded(L.csiRs, p.fields, PackBeamforming(p.beamforming, tail));
    PullBeamformingPacked(p.beamforming, tail);
  }

  /** The SSB `fields`: the scalars of the layout, then the BCH payload,
      then the RSRP value, which is not sent. */
  function BchPayloadIndex(L: DlLayouts): nat { |L.ssb| }
  function SsbFieldCount(L: DlLayouts): nat { |L.ssb| + 2 }

  /** The 24-bit BCH payload as three bytes, most significant first, and
      a zero byte. */
  function BchPayloadBytes(x: int): (r: seq<int>)
    ensures |r| == 4 && AllFit(Repeat(W8, 4), r)
  {
    var u := x % 0x1_0000_0000;
    [(u / 0x1_0000) % 0x100, (u / 0x100) % 0x100, u % 0x100, 0]
  }

  /** The receiver rebuilds the payload from the first three bytes and
      ignores the fourth. */
  function BchPayloadValue(bs: seq<int>): int
    requires |bs| == 4
  {
    bs[0] * 0x1_0000 + bs[1] * 0x100 + bs[2]
  }

  /** The BCH payload survives the wire exactly when it fits in 24 bits. */
  lemma BchPayloadRoundTrip(x: int)
    requires Fits(W32, x)
    ensures BchPayloadValue(BchPayloadBytes(x)) == x % 0x100_0000
    ensures BchPayloadValue(BchPayloadBytes(x)) == x <==> x < 0x100_0000
  {
    Arithmetic.ModSmall(x, 0x1_0000_0000);
    var lo := x % 0x1_0000;
    var q := x / 0x1_0000;
    var b0 := q % 0x100;
    assert x == q * 0x1_0000 + lo;
    assert lo == (lo / 0x100) * 0x100 + lo % 0x100;
    Arithmetic.DivModUnique(x, 0x100, q * 0x100 + lo / 0x100, lo % 0x100);
    Arithmetic.DivModUnique(x / 0x100, 0x100, q, lo / 0x100);
    assert q == (q / 0x100) * 0x100 + b0;
    Arithmetic.DivModUnique(x, 0x100_0000, q / 0x100, b0 * 0x1_0000 + lo);
  }

  predicate SsbWellFormed(L: DlLayouts, p: PlainPdu) {
    |p.fields| == SsbFieldCount(L) && BeamformingShaped(p.beamforming)
  }

  /** `pack_dl_tti_ssb_pdu_rel15_value`: the RSRP value is not sent. */
  function PackSsb(L: DlLayouts, p: PlainPdu, tail: seq<Byte>): seq<Byte>
    requires SsbWellFormed(L, p)
  {
    EncodeFields(L.ssb, p.fields[..BchPayloadIndex(L)],
      EncodeFields(Repeat(W8, 4), BchPayloadBytes(p.fields[BchPayloadIndex(L)]),
      PackBeamforming(p.beamforming, tail)))
  }

  /** `unpack_dl_tti_ssb_pdu_rel15_value`: the RSRP value stays zero. */
  function PullSsb(L: DlLayouts, s: seq<Byte>): (r: Option<Parsed<PlainPdu>>)
    ensures r.Some? ==> SsbWellFormed(L, r.value.value)
  {
    match PullFields(L.ssb, s)
    case None => None
    case Some(f) =>
      match PullFields(Repeat(W8, 4), f.rest)
      case None => None
      case Some(bch) =>
        match PullBeamforming(bch.rest)
        case None => None
        case Some(bf) => Some(Parsed(PlainPdu(f.value + [BchPayloadValue(bch.value), 0], bf.value), bf.rest))
  }

  predicate SsbFits(L: DlLayouts, p: PlainPdu) {
    SsbWellFormed(L, p) && AllFit(L.ssb, p.fields[..BchPayloadIndex(L)])
    && Fits(W32, p.fields[BchPayloadIndex(L)]) && BeamformingFits(p.beamforming)
  }

  function RetainedSsb(L: DlLayouts, p: PlainPdu): (r: PlainPdu)
    requires SsbWellFormed(L, p)
    ensures PlainShaped(r) && SsbWellFormed(L, r)
  {
    PlainPdu(p.fields[..BchPayloadIndex(L)] + [p.fields[BchPayloadIndex(L)] % 0x100_0000, 0],
             CopyBeamforming(p.beamforming))
  }

  lemma PullSsbPacked(L: DlLayouts, p: PlainPdu, tail: seq<Byte>)
    requires SsbFits(L, p)
    ensures PullSsb(L, PackSsb(L, p, tail)) == Some(Parsed(RetainedSsb(L, p), tail))
  {
    var bch := BchPayloadBytes(p.fields[BchPayloadIndex(L)]);
    var t2 := PackBeamforming(p.beamforming, tail);
    var t1 := EncodeFields(Repeat(W8, 4), bch, t2);
    PullFieldsEncoded(L.ssb, p.fields[..BchPayloadIndex(L)], t1);
    PullFieldsEncoded(Repeat(W8, 4), bch, t2);
    BchPayloadRoundTrip(p.fields[BchPayloadIndex(L)]);
    PullBeamformingPacked(p.beamforming, tail);
  }
}
