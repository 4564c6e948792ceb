/** The F1 SETUP REQUEST of the F1AP library (TS 38.473 section 9.2.1.4):
    the DU's message as a value, its encoding into information elements,
    the decoder's checks, and the deep copy and equality helpers. ASN.1
    PER coding and the TBCD packing of PLMN identities are not part of this
    model: an encoded PLMN identity, NR cell identity or integer carries
    its value unchanged. */
module F1apSetup {
  import opened Common
  import opened FapiWire

  const Two32 := 0x1_0000_0000

  // ---------------------------------------------------------------
  // NRNRB (TS 38.473 section 9.3.1.18): number of RBs <-> enumeration index
  // ---------------------------------------------------------------

  const NrbTable: seq<nat> := [11, 18, 24, 25, 31, 32, 38, 51, 52, 65, 66, 78, 79, 93, 106,
                               107, 121, 132, 133, 135, 160, 162, 189, 216, 217, 245, 264, 270, 273]

  predicate Increasing(t: seq<nat>)
  {
    forall k :: 0 <= k < |t| - 1 ==> t[k] < t[k + 1]
  }

  lemma {:induction false} IncreasingOrdered(t: seq<nat>, i: nat, j: nat)
    requires Increasing(t) && i < j < |t|
    ensures t[i] < t[j]
    decreases j - i
  {
    if i < j - 1 {
      IncreasingOrdered(t, i, j - 1);
    }
  }

  lemma NrbTableIncreasing()
    ensures Increasing(NrbTable)
  {
  }

  /** First position at or after i of t holding x. */
  function IndexFrom(t: seq<nat>, x: int, i: nat): (r: Outcome<nat>)
    requires i <= |t|
    ensures r.Ok? ==> i <= r.value < |t| && t[r.value] == x
    ensures r.Ok? ==> forall k :: i <= k < r.value ==> t[k] != x
    ensures r.Fatal? <==> forall k :: i <= k < |t| ==> t[k] != x
    decreases |t| - i
  {
    if i == |t| then Fatal
    else if t[i] == x then Ok(i)
    else IndexFrom(t, x, i + 1)
  }

  /** In an increasing table the first match of an entry is its position. */
  lemma IndexOfIncreasing(t: seq<nat>, i: nat)
    requires Increasing(t) && i < |t|
    ensures IndexFrom(t, t[i], 0) == Ok(i)
  {
    var r := IndexFrom(t, t[i], 0);
    if r.value < i {
      IncreasingOrdered(t, r.value, i);
    }
  }

  /** to_NRNRB: the enumeration index of a bandwidth in RBs; a bandwidth
    * outside the table aborts. */
  function ToNrNrb(nrb: int): (r: Outcome<nat>)
    ensures r.Ok? ==> r.value < |NrbTable| && NrbTable[r.value] == nrb
    ensures r.Fatal? <==> nrb !in NrbTable
  {
    IndexFrom(NrbTable, nrb, 0)
  }

  /** Every index is the one the encoder chooses for its bandwidth, so
    * decoding the chosen index gives the bandwidth back. */
  lemma NrNrbRoundTrip(i: nat)
    requires i < |NrbTable|
    ensures ToNrNrb(NrbTable[i]) == Ok(i)
  {
    NrbTableIncreasing();
    IndexOfIncreasing(NrbTable, i);
  }

  // ---------------------------------------------------------------
  // 5GS TAC: 3 octets, most significant first
  // ---------------------------------------------------------------

  lemma {:induction false} BigEndianDropsTop(n: nat, u: nat)
    ensures BigEndian(n + 1, u)[1..] == BigEndian(n, u)
  {
    if n > 0 {
      BigEndianDropsTop(n - 1, u / 0x100);
      assert BigEndian(n + 1, u)[1..] == BigEndian(n, u / 0x100)[1..] + [u % 0x100];
    }
  }

  /** The TAC octets: the uint32 in network order without its first byte. */
  function EncodeTac(tac: nat): (bs: seq<Byte>)
    ensures |bs| == 3
  {
    BigEndian(4, tac)[1..]
  }

  function DecodeTac(bs: seq<Byte>): (tac: nat)
    requires |bs| == 3
    ensures tac < 0x100_0000
  {
    assert Pow256(3) == 0x100_0000;
    ValueOf(bs)
  }

  /** The TAC survives encoding exactly when it fits in 24 bits. */
  lemma TacRoundTrip(tac: nat)
    ensures EncodeTac(tac) == BigEndian(3, tac)
    ensures DecodeTac(EncodeTac(tac)) == tac % 0x100_0000
  {
    BigEndianDropsTop(3, tac);
    ValueOfBigEndian(3, tac);
    assert Pow256(3) == 0x100_0000;
  }

  // ---------------------------------------------------------------
  // gNB-DU RRC version: latest RRC version BIT STRING (SIZE(3))
  // ---------------------------------------------------------------

  function Flag(b: Byte): (f: nat)
    ensures f <= 1 && (f == 1 <==> b != 0)
  {
    if b != 0 then 1 else 0
  }

  /** The leading bits of a one-octet BIT STRING: bit k is octet bit 7 - k,
    * and the last `bitsUnused` octet bits are not part of the value. */
  function BitStringBits(octet: Byte, bitsUnused: nat): (bits: seq<bool>)
    requires bitsUnused <= 8
    ensures |bits| == 8 - bitsUnused
  {
    seq(8 - bitsUnused, k requires 0 <= k < 8 - bitsUnused => BitSet(octet, 7 - k))
  }

  /** The octet the encoder writes: bit i is set iff rrc_ver[i] != 0. */
  function RrcVersionOctetAsWritten(rrcVer: seq<Byte>): (octet: Byte)
    requires |rrcVer| == 3
    ensures forall i :: 0 <= i < 3 ==> (BitSet(octet, i) <==> rrcVer[i] != 0)
  {
    var r := Flag(rrcVer[0]) + 2 * Flag(rrcVer[1]) + 4 * Flag(rrcVer[2]);
    assert Pow2(1) == 2 && Pow2(2) == 4;
    r
  }

  /** With five unused bits the flags land in the unused part: the 3-bit
    * value sent is always 000. */
  lemma AsWrittenRrcVersionIsZero(rrcVer: seq<Byte>)
    requires |rrcVer| == 3
    ensures BitStringBits(RrcVersionOctetAsWritten(rrcVer), 5) == [false, false, false]
    ensures rrcVer != [0, 0, 0] ==> BitStringBits(RrcVersionOctetAsWritten(rrcVer), 5) != BitStringBits(RrcVersionOctet(rrcVer), 5)
  {
    var o := RrcVersionOctetAsWritten(rrcVer);
    assert o < 8;
    assert Pow2(5) == 32 && Pow2(6) == 64 && Pow2(7) == 128;
    if rrcVer != [0, 0, 0] {
      assert rrcVer[0] != 0 || rrcVer[1] != 0 || rrcVer[2] != 0;
    }
  }

  /** Corrected octet: flag i in BIT STRING bit i, i.e. octet bit 7 - i. */
  function RrcVersionOctet(rrcVer: seq<Byte>): (octet: Byte)
    requires |rrcVer| == 3
    ensures BitStringBits(octet, 5) == [rrcVer[0] != 0, rrcVer[1] != 0, rrcVer[2] != 0]
  {
    var r := 128 * Flag(rrcVer[0]) + 64 * Flag(rrcVer[1]) + 32 * Flag(rrcVer[2]);
    assert Pow2(5) == 32 && Pow2(6) == 64 && Pow2(7) == 128;
    r
  }

  // ---------------------------------------------------------------
  // The DU's message as a value
  // ---------------------------------------------------------------

  datatype Plmn = Plmn(mcc: nat, mnc: nat, mncDigitLength: nat)
  datatype FreqInfo = FreqInfo(arfcn: nat, band: nat)
  datatype Bandwidth = Bandwidth(scs: nat, nrb: nat)
  datatype DuplexInfo =
    | Fdd(ulFreq: FreqInfo, dlFreq: FreqInfo, ulTbw: Bandwidth, dlTbw: Bandwidth)
    | Tdd(freq: FreqInfo, tbw: Bandwidth)
  datatype Nssai = Nssai(sst: Byte, sd: nat)

  datatype CellInfo = CellInfo(plmn: Plmn, nrCellId: nat, nrPci: nat, tac: Option<nat>,
                               nssai: seq<Nssai>, mode: DuplexInfo, mtc: seq<Byte>)
  datatype SysInfo = SysInfo(mib: seq<Byte>, sib1: seq<Byte>)
  datatype Cell = Cell(info: CellInfo, sysInfo: Option<SysInfo>)

  /** A zero-initialised cell entry. */
  const EmptyCell := Cell(CellInfo(Plmn(0, 0, 0), 0, 0, None, [], Tdd(FreqInfo(0, 0), Bandwidth(0, 0)), []), None)

  /** The request: `cells` is the fixed cell array of which the first
    * `numCells` entries are in use; `duName` is the C string's content. */
  datatype SetupRequest = SetupRequest(transactionId: int, duId: nat, duName: Option<seq<Byte>>,
                                       numCells: nat, cells: seq<Cell>, rrcVer: seq<Byte>)

  predicate WellSized(m: SetupRequest)
  {
    m.numCells <= |m.cells| && |m.rrcVer| == 3
  }

  // ---------------------------------------------------------------
  // Information elements
  // ---------------------------------------------------------------

  datatype BandItem = BandItem(band: nat, sulBands: nat)
  datatype SliceItem = SliceItem(sst: Byte, sd: Option<seq<Byte>>)
  datatype ServedPlmnItem = ServedPlmnItem(plmn: Plmn, slices: seq<SliceItem>)
  datatype ModeInfoIe =
    | FddIe(ulArfcn: nat, ulBands: seq<BandItem>, dlArfcn: nat, dlBands: seq<BandItem>,
            ulScs: nat, ulNrb: nat, dlScs: nat, dlNrb: nat)
    | TddIe(arfcn: nat, bands: seq<BandItem>, scs: nat, nrb: nat)
    | NoModeIe
  datatype ServedCellIe = ServedCellIe(cgiPlmn: Plmn, cellId: nat, pci: nat, tac: Option<seq<Byte>>,
                                       servedPlmns: seq<ServedPlmnItem>, modeInfo: ModeInfoIe, mtc: seq<Byte>)
  datatype ServedCellsItem = ServedCellsItem(info: ServedCellIe, sysInfo: Option<SysInfo>)
  datatype SetupIe =
    | TransactionIdIe(transactionId: int)
    | DuIdIe(duId: nat)
    | DuNameIe(name: seq<Byte>)
    | ServedCellsIe(cells: seq<ServedCellsItem>)
    | RrcVersionIe(latest: Byte, bitsUnused: nat, enhanced: Option<seq<Byte>>)
    | OtherIe(ieId: nat)

  /** What the ASN.1 decoder guarantees of a served cell: a 3-octet TAC and
    * SD, and NRNRB indices among the enumerated values. */
  predicate SliceWellFormed(s: SliceItem)
  {
    s.sd.Some? ==> |s.sd.value| == 3
  }

  predicate CellIeWellFormed(c: ServedCellIe)
  {
    (c.tac.Some? ==> |c.tac.value| == 3)
    && (forall p :: 0 <= p < |c.servedPlmns| ==> forall s :: 0 <= s < |c.servedPlmns[p].slices| ==> SliceWellFormed(c.servedPlmns[p].slices[s]))
    && ModeIeWellFormed(c.modeInfo)
  }

  predicate ModeIeWellFormed(m: ModeInfoIe)
  {
    (m.FddIe? ==> m.ulNrb < |NrbTable| && m.dlNrb < |NrbTable|)
    && (m.TddIe? ==> m.nrb < |NrbTable|)
  }

  predicate ItemsWellFormed(items: seq<ServedCellsItem>)
  {
    forall i :: 0 <= i < |items| ==> CellIeWellFormed(items[i].info)
  }

  // ---------------------------------------------------------------
  // Encoding (encode_served_cell_info, encode_f1ap_setup_request)
  // ---------------------------------------------------------------

  function EncodeMode(d: DuplexInfo): (r: Outcome<ModeInfoIe>)
    ensures r.Fatal? <==> (if d.Fdd? then d.ulTbw.nrb !in NrbTable || d.dlTbw.nrb !in NrbTable else d.tbw.nrb !in NrbTable)
    ensures r.Ok? ==> ModeIeWellFormed(r.value)
  {
    match d
    case Fdd(ul, dl, ulTbw, dlTbw) =>
      var ulNrb := ToNrNrb(ulTbw.nrb);
      var dlNrb := ToNrNrb(dlTbw.nrb);
      if ulNrb.Fatal? || dlNrb.Fatal? then Fatal
      else Ok(FddIe(ul.arfcn, [BandItem(ul.band, 0)], dl.arfcn, [BandItem(dl.band, 0)],
                    ulTbw.scs, ulNrb.value, dlTbw.scs, dlNrb.value))
    case Tdd(f, tbw) =>
      var nrb := ToNrNrb(tbw.nrb);
      if nrb.Fatal? then Fatal else Ok(TddIe(f.arfcn, [BandItem(f.band, 0)], tbw.scs, nrb.value))
  }

  /** One served cell: a single served PLMN without slice list, one band
    * per direction, and the TAC's low three octets. */
  function EncodeCell(c: CellInfo): (r: Outcome<ServedCellIe>)
    ensures r.Fatal? <==> EncodeMode(c.mode).Fatal?
    ensures r.Ok? ==> CellIeWellFormed(r.value) && |r.value.servedPlmns| == 1 && r.value.servedPlmns[0].slices == []
  {
    var mode := EncodeMode(c.mode);
    if mode.Fatal? then Fatal
    else
      var tac := if c.tac.Some? then Some(EncodeTac(c.tac.value)) else None;
      Ok(ServedCellIe(c.plmn, c.nrCellId, c.nrPci, tac, [ServedPlmnItem(c.plmn, [])], mode.value, c.mtc))
  }

  function EncodeCells(cells: seq<Cell>): (r: Outcome<seq<ServedCellsItem>>)
    ensures r.Ok? <==> forall i :: 0 <= i < |cells| ==> EncodeCell(cells[i].info).Ok?
    ensures r.Ok? ==> |r.value| == |cells|
    ensures r.Ok? ==> forall i :: 0 <= i < |cells| ==> EncodeCell(cells[i].info) == Ok(r.value[i].info) && r.value[i].sysInfo == cells[i].sysInfo
  {
    if cells == [] then Ok([])
    else
      var head := EncodeCell(cells[0].info);
      var tail := EncodeCells(cells[1..]);
      assert forall i :: 1 <= i < |cells| ==> cells[1..][i - 1] == cells[i];
      if head.Fatal? || tail.Fatal? then Fatal
      else Ok([ServedCellsItem(head.value, cells[0].sysInfo)] + tail.value)
  }

  function NameIes(duName: Option<seq<Byte>>): seq<SetupIe>
  {
    if duName.Some? then [DuNameIe(duName.value)] else []
  }

  /** The RRC version IE: the latest-version octet with five unused bits
    * and the three version octets in the extension. */
  function RrcIe(rrcVer: seq<Byte>): SetupIe
    requires |rrcVer| == 3
  {
    RrcVersionIe(RrcVersionOctet(rrcVer), 5, Some(rrcVer))
  }

  /** The IEs of the request in the encoder's order: transaction id, DU id,
    * the name when there is one, the served cells (always, possibly
    * empty), the RRC version. */
  function EncodeRequest(m: SetupRequest): (r: Outcome<seq<SetupIe>>)
    requires WellSized(m)
    ensures r.Ok? <==> forall i :: 0 <= i < m.numCells ==> EncodeCell(m.cells[i].info).Ok?
  {
    assert forall i :: 0 <= i < m.numCells ==> m.cells[..m.numCells][i] == m.cells[i];
    var cells := EncodeCells(m.cells[..m.numCells]);
    if cells.Fatal? then Fatal
    else Ok([TransactionIdIe(m.transactionId)] + ([DuIdIe(m.duId)] + (NameIes(m.duName) + [ServedCellsIe(cells.value), RrcIe(m.rrcVer)])))
  }

  // ---------------------------------------------------------------
  // Decoding (decode_served_cell_info, decode_f1ap_setup_request)
  // ---------------------------------------------------------------

  /** A decoder returns true with a value, false, or aborts. */
  datatype Decoding<T> = Accepted(value: T) | Rejected | Aborted

  /** The slice list of the served PLMN (read_slice_info): an absent SD
    * stands for 0xFFFFFF; more than 16 slices abort. */
  function DecodeSlices(items: seq<SliceItem>): (r: Outcome<seq<Nssai>>)
    requires forall s :: 0 <= s < |items| ==> SliceWellFormed(items[s])
    ensures r.Fatal? <==> |items| > 16
    ensures r.Ok? ==> |r.value| == |items|
    ensures r.Ok? ==> forall s :: 0 <= s < |items| ==>
      (r.value[s].sst == items[s].sst
       && (items[s].sd.None? ==> r.value[s].sd == 0xFF_FFFF)
       && (items[s].sd.Some? ==> r.value[s].sd == ValueOf(items[s].sd.value)))
  {
    if |items| > 16 then Fatal
    else Ok(seq(|items|, s requires 0 <= s < |items| =>
      Nssai(items[s].sst, if items[s].sd.Some? then ValueOf(items[s].sd.value) else 0xFF_FFFF)))
  }

  /** Exactly one band, without supplementary uplink bands. */
  predicate SingleBand(bands: seq<BandItem>)
  {
    |bands| == 1 && bands[0].sulBands == 0
  }

  function DecodeMode(m: ModeInfoIe): (r: Decoding<DuplexInfo>)
    requires ModeIeWellFormed(m)
    ensures !r.Aborted?
    ensures r.Accepted? <==> (m.FddIe? && SingleBand(m.ulBands) && SingleBand(m.dlBands)) || (m.TddIe? && SingleBand(m.bands))
  {
    match m
    case FddIe(ulArfcn, ulBands, dlArfcn, dlBands, ulScs, ulNrb, dlScs, dlNrb) =>
      if !SingleBand(ulBands) || !SingleBand(dlBands) then Rejected
      else Accepted(Fdd(FreqInfo(ulArfcn, ulBands[0].band), FreqInfo(dlArfcn, dlBands[0].band),
                        Bandwidth(ulScs, NrbTable[ulNrb]), Bandwidth(dlScs, NrbTable[dlNrb])))
    case TddIe(arfcn, bands, scs, nrb) =>
      if !SingleBand(bands) then Rejected
      else Accepted(Tdd(FreqInfo(arfcn, bands[0].band), Bandwidth(scs, NrbTable[nrb])))
    case NoModeIe => Rejected
  }

  /** decode_served_cell_info into the entry `prev`: a TAC, when present,
    * replaces the entry's; exactly one served PLMN, a known duplex mode
    * and a non-empty measurement timing configuration are required. */
  function DecodeCell(ie: ServedCellIe, prev: CellInfo): (r: Decoding<CellInfo>)
    requires CellIeWellFormed(ie)
    ensures r.Aborted? <==> |ie.servedPlmns| == 1 && |ie.servedPlmns[0].slices| > 16
    ensures r.Accepted? <==>
      (|ie.servedPlmns| == 1 && |ie.servedPlmns[0].slices| <= 16 && DecodeMode(ie.modeInfo).Accepted? && |ie.mtc| > 0)
    ensures r.Accepted? ==> r.value.tac == (if ie.tac.Some? then Some(DecodeTac(ie.tac.value)) else prev.tac)
  {
    var tac := if ie.tac.Some? then Some(DecodeTac(ie.tac.value)) else prev.tac;
    if |ie.servedPlmns| != 1 then Rejected
    else
      var slices := DecodeSlices(ie.servedPlmns[0].slices);
      if slices.Fatal? then Aborted
      else
        var mode := DecodeMode(ie.modeInfo);
        if !mode.Accepted? then Rejected
        else if |ie.mtc| == 0 then Rejected
        else Accepted(CellInfo(ie.cgiPlmn, ie.cellId, ie.pci, tac, slices.value, mode.value, ie.mtc))
  }

  /** `r` is the cell array after decoding `items` into `cells`: each
    * decoded entry holds its item's cell information, and the item's
    * system information or else the entry's; later entries are untouched. */
  predicate DecodedInto(items: seq<ServedCellsItem>, cells: seq<Cell>, r: seq<Cell>)
    requires |items| <= |cells| && ItemsWellFormed(items)
  {
    |r| == |cells| && r[|items|..] == cells[|items|..]
    && forall i :: 0 <= i < |items| ==>
      (DecodeCell(items[i].info, cells[i].info) == Accepted(r[i].info)
       && r[i].sysInfo == (if items[i].sysInfo.Some? then items[i].sysInfo else cells[i].sysInfo))
  }

  lemma {:induction false} DecodedIntoCons(items: seq<ServedCellsItem>, cells: seq<Cell>, c: Cell, rest: seq<Cell>)
    requires 1 <= |items| <= |cells| && ItemsWellFormed(items) && ItemsWellFormed(items[1..])
    requires DecodeCell(items[0].info, cells[0].info) == Accepted(c.info)
    requires c.sysInfo == (if items[0].sysInfo.Some? then items[0].sysInfo else cells[0].sysInfo)
    requires DecodedInto(items[1..], cells[1..], rest)
    ensures DecodedInto(items, cells, [c] + rest)
  {
    var r := [c] + rest;
    assert forall i :: 1 <= i < |items| ==> items[1..][i - 1] == items[i] && cells[1..][i - 1] == cells[i] && r[i] == rest[i - 1];
    assert r[|items|..] == rest[|items| - 1..];
  }

  lemma {:induction false} ItemsWellFormedTail(items: seq<ServedCellsItem>)
    requires ItemsWellFormed(items) && items != []
    ensures ItemsWellFormed(items[1..])
  {
    assert forall i :: 0 <= i < |items| - 1 ==> items[1..][i] == items[i + 1];
  }

  /** The served cells into the first entries of the cell array, stopping
    * at the first cell the decoder refuses. */
  function DecodeCells(items: seq<ServedCellsItem>, cells: seq<Cell>): (r: Decoding<seq<Cell>>)
    requires |items| <= |cells|
    requires ItemsWellFormed(items)
    ensures r.Accepted? ==> DecodedInto(items, cells, r.value)
    decreases |items|
  {
    if items == [] then Accepted(cells)
    else
      var item := items[0];
      var info := DecodeCell(item.info, cells[0].info);
      if info.Rejected? then Rejected
      else if info.Aborted? then Aborted
      else
        ItemsWellFormedTail(items);
        var rest := DecodeCells(items[1..], cells[1..]);
        if !rest.Accepted? then rest
        else
          var c := Cell(info.value, if item.sysInfo.Some? then item.sysInfo else cells[0].sysInfo);
          DecodedIntoCons(items, cells, c, rest.value);
          Accepted([c] + rest.value)
  }

  /** The C string strncpy leaves: the bytes before the first NUL. */
  function CString(bs: seq<Byte>): (s: seq<Byte>)
    ensures |s| <= |bs| && s == bs[..|s|] && 0 !in s
    ensures |s| < |bs| ==> bs[|s|] == 0
  {
    if bs == [] || bs[0] == 0 then []
    else
      var rest := CString(bs[1..]);
      [bs[0]] + rest
  }

  predicate IeWellFormed(ie: SetupIe, maxCells: nat)
  {
    ie.ServedCellsIe? ==> |ie.cells| <= maxCells && ItemsWellFormed(ie.cells)
  }

  predicate IesWellFormed(ies: seq<SetupIe>, maxCells: nat)
  {
    forall k :: 0 <= k < |ies| ==> IeWellFormed(ies[k], maxCells)
  }

  /** One pass of the IE loop: the IE's value written into `out`. */
  function ApplyIe(ie: SetupIe, out: SetupRequest): (r: Decoding<SetupRequest>)
    requires IeWellFormed(ie, |out.cells|)
    ensures r.Accepted? ==> |r.value.cells| == |out.cells|
    ensures r.Rejected? <==>
      ((ie.TransactionIdIe? && ie.transactionId == -1) || ie.OtherIe?
       || (ie.ServedCellsIe? && (|ie.cells| == 0 || DecodeCells(ie.cells, out.cells).Rejected?)))
    ensures r.Aborted? <==>
      ((ie.ServedCellsIe? && |ie.cells| > 0 && DecodeCells(ie.cells, out.cells).Aborted?)
       || (ie.RrcVersionIe? && ie.enhanced.Some? && |ie.enhanced.value| != 3))
  {
    match ie
    case TransactionIdIe(v) => if v == -1 then Rejected else Accepted(out.(transactionId := v))
    case DuIdIe(v) => Accepted(out.(duId := v))
    case DuNameIe(name) => Accepted(out.(duName := Some(CString(name))))
    case ServedCellsIe(items) =>
      if |items| == 0 then Rejected
      else
        var cells := DecodeCells(items, out.cells);
        if cells.Rejected? then Rejected
        else if cells.Aborted? then Aborted
        else Accepted(out.(numCells := |items|, cells := cells.value))
    case RrcVersionIe(_, _, enhanced) =>
      if enhanced.None? then Accepted(out)
      else if |enhanced.value| != 3 then Aborted
      else Accepted(out.(rrcVer := enhanced.value))
    case OtherIe(_) => Rejected
  }

  /** The IE loop: the IEs applied in order, stopping at the first refusal;
    * an IE the decoder does not know is always refused. */
  function DecodeIes(ies: seq<SetupIe>, out: SetupRequest): (r: Decoding<SetupRequest>)
    requires IesWellFormed(ies, |out.cells|)
    ensures r.Accepted? ==> |r.value.cells| == |out.cells|
    ensures (exists k :: 0 <= k < |ies| && ies[k].OtherIe?) ==> !r.Accepted?
    decreases |ies|
  {
    if ies == [] then Accepted(out)
    else
      assert forall k :: 0 <= k < |ies| - 1 ==> ies[1..][k] == ies[k + 1];
      var step := ApplyIe(ies[0], out);
      if step.Accepted? then
        var r := DecodeIes(ies[1..], step.value);
        assert (exists k :: 1 <= k < |ies| && ies[k].OtherIe?) ==> !r.Accepted? by {
          if k :| 1 <= k < |ies| && ies[k].OtherIe? {
            assert ies[1..][k - 1].OtherIe?;
          }
        }
        r
      else step
  }

  lemma DecodeIesCons(ie: SetupIe, rest: seq<SetupIe>, out: SetupRequest)
    requires IeWellFormed(ie, |out.cells|) && IesWellFormed([ie] + rest, |out.cells|)
    requires ApplyIe(ie, out).Accepted?
    ensures IesWellFormed(rest, |out.cells|)
    ensures DecodeIes([ie] + rest, out) == DecodeIes(rest, ApplyIe(ie, out).value)
  {
    assert ([ie] + rest)[0] == ie && ([ie] + rest)[1..] == rest;
    assert forall k :: 0 <= k < |rest| ==> ([ie] + rest)[k + 1] == rest[k];
  }
  predicate HasTransactionId(ies: seq<SetupIe>) { exists k :: 0 <= k < |ies| && ies[k].TransactionIdIe? }
  predicate HasDuId(ies: seq<SetupIe>) { exists k :: 0 <= k < |ies| && ies[k].DuIdIe? }
  predicate HasRrcVersion(ies: seq<SetupIe>) { exists k :: 0 <= k < |ies| && ies[k].RrcVersionIe? }

  /** decode_f1ap_setup_request: the three mandatory IEs must be present,
    * then every IE is applied in order. */
  function DecodeRequest(ies: seq<SetupIe>, out: SetupRequest): (r: Decoding<SetupRequest>)
    requires IesWellFormed(ies, |out.cells|)
    ensures !(HasTransactionId(ies) && HasDuId(ies) && HasRrcVersion(ies)) ==> r == Rejected
    ensures HasTransactionId(ies) && HasDuId(ies) && HasRrcVersion(ies) ==> r == DecodeIes(ies, out)
  {
    if !(HasTransactionId(ies) && HasDuId(ies) && HasRrcVersion(ies)) then Rejected
    else DecodeIes(ies, out)
  }

  // ---------------------------------------------------------------
  // Deep copy and equality (cp_f1ap_setup_request, eq_f1ap_setup_request)
  // ---------------------------------------------------------------

  /** cp_f1ap_setup_request: the fields and the cells in use are copied
    * into a zero-initialised request. */
  function CopyRequest(m: SetupRequest): (c: SetupRequest)
    requires m.numCells <= |m.cells|
    ensures |c.cells| == |m.cells| && c.numCells == m.numCells && c.numCells <= |c.cells|
    ensures c.cells[..c.numCells] == m.cells[..m.numCells]
    ensures forall i :: c.numCells <= i < |c.cells| ==> c.cells[i] == EmptyCell
  {
    SetupRequest(m.transactionId, m.duId, m.duName, m.numCells,
                 m.cells[..m.numCells] + seq(|m.cells| - m.numCells, _ => EmptyCell), m.rrcVer)
  }

  /** eq_f1ap_setup_request: the cells in use, the scalar fields and the
    * RRC version octets agree. The cell and system-information
    * comparisons are value equality of the modelled fields. */
  predicate EqRequest(a: SetupRequest, b: SetupRequest)
  {
    a.numCells <= |a.cells| && b.numCells <= |b.cells|
    && a.duId == b.duId && a.duName == b.duName && a.transactionId == b.transactionId
    && a.numCells == b.numCells
    && (forall i :: 0 <= i < a.numCells ==> a.cells[i] == b.cells[i])
    && a.rrcVer == b.rrcVer
  }

  /** A copy is equal to its original. */
  lemma CopyIsEqual(m: SetupRequest)
    requires m.numCells <= |m.cells|
    ensures EqRequest(CopyRequest(m), m)
  {
    var c := CopyRequest(m);
    forall i | 0 <= i < m.numCells ensures c.cells[i] == m.cells[i] {
      assert c.cells[..c.numCells][i] == m.cells[..m.numCells][i];
    }
  }

  /** Equality is exactly "same copy": the copy is the canonical form the
    * comparison looks at. */
  lemma EqIffSameCopy(a: SetupRequest, b: SetupRequest)
    requires a.numCells <= |a.cells| && b.numCells <= |b.cells| && |a.cells| == |b.cells|
    ensures EqRequest(a, b) <==> CopyRequest(a) == CopyRequest(b)
  {
    var ca, cb := CopyRequest(a), CopyRequest(b);
    if EqRequest(a, b) {
      assert a.cells[..a.numCells] == b.cells[..b.numCells];
      assert ca.cells == cb.cells;
    }
    if ca == cb {
      forall i | 0 <= i < a.numCells ensures a.cells[i] == b.cells[i] {
        assert ca.cells[..ca.numCells][i] == cb.cells[..cb.numCells][i];
      }
    }
  }

  // ---------------------------------------------------------------
  // Round trip
  // ---------------------------------------------------------------

  /** What a cell keeps through encoding: the encoder sends no slice list
    * and only the TAC's low 24 bits. */
  function Transmitted(c: Cell): Cell
  {
    Cell(c.info.(nssai := [], tac := if c.info.tac.Some? then Some(c.info.tac.value % 0x100_0000) else None), c.sysInfo)
  }

  function TransmittedCells(cells: seq<Cell>): (r: seq<Cell>)
    ensures |r| == |cells| && forall i :: 0 <= i < |cells| ==> r[i] == Transmitted(cells[i])
  {
    if cells == [] then [] else [Transmitted(cells[0])] + TransmittedCells(cells[1..])
  }

  /** A zero-initialised request with room for n cells. */
  function ZeroRequest(n: nat): (z: SetupRequest)
    ensures |z.cells| == n && forall i :: 0 <= i < n ==> z.cells[i] == EmptyCell
  {
    SetupRequest(0, 0, None, 0, seq(n, _ => EmptyCell), [0, 0, 0])
  }

  function TransmittedRequest(m: SetupRequest): (t: SetupRequest)
    requires WellSized(m)
  {
    m.(cells := TransmittedCells(m.cells[..m.numCells]) + ZeroRequest(|m.cells|).cells[m.numCells..])
  }

  predicate CellEncodable(c: Cell)
  {
    EncodeMode(c.info.mode).Ok? && |c.info.mtc| > 0
  }

  lemma DecodeEncodedMode(d: DuplexInfo)
    requires EncodeMode(d).Ok?
    ensures DecodeMode(EncodeMode(d).value) == Accepted(d)
  {
  }

  lemma DecodeEncodedCell(c: Cell, prev: CellInfo)
    requires CellEncodable(c) && prev.tac.None?
    ensures EncodeCell(c.info).Ok? && DecodeCell(EncodeCell(c.info).value, prev) == Accepted(Transmitted(c).info)
  {
    if c.info.tac.Some? {
      TacRoundTrip(c.info.tac.value);
    }
    DecodeEncodedMode(c.info.mode);
    assert DecodeSlices([]) == Ok([]);
  }

  predicate EncodableInto(cells: seq<Cell>, out: seq<Cell>)
  {
    |cells| <= |out| && forall i :: 0 <= i < |cells| ==> CellEncodable(cells[i]) && out[i] == EmptyCell
  }

  lemma {:induction false} EncodableIntoTail(cells: seq<Cell>, out: seq<Cell>)
    requires EncodableInto(cells, out) && cells != []
    ensures EncodableInto(cells[1..], out[1..]) && CellEncodable(cells[0]) && out[0] == EmptyCell
  {
    assert forall i :: 0 <= i < |cells| - 1 ==> cells[1..][i] == cells[i + 1] && out[1..][i] == out[i + 1];
  }

  /** Encoding the cells and decoding them into out gives the transmitted
    * cells followed by what out held past them. */
  predicate CellsRoundTrip(cells: seq<Cell>, out: seq<Cell>)
    requires |cells| <= |out|
  {
    && EncodeCells(cells).Ok? && ItemsWellFormed(EncodeCells(cells).value)
    && DecodeCells(EncodeCells(cells).value, out) == Accepted(TransmittedCells(cells) + out[|cells|..])
  }

  lemma {:induction false} DecodeEncodedCells(cells: seq<Cell>, out: seq<Cell>)
    requires EncodableInto(cells, out)
    ensures CellsRoundTrip(cells, out)
    decreases |cells|
  {
    if cells != [] {
      EncodableIntoTail(cells, out);
      DecodeEncodedCells(cells[1..], out[1..]);
      DecodeEncodedCellsStep(cells, out);
    } else {
      DecodeNoCells(out);
    }
  }

  lemma DecodeNoCells(out: seq<Cell>)
    ensures EncodeCells([]) == Ok([]) && ItemsWellFormed([])
    ensures DecodeCells([], out) == Accepted(TransmittedCells([]) + out[0..])
  {
    assert TransmittedCells([]) + out[0..] == out;
  }

  lemma {:induction false} DecodeEncodedCellsStep(cells: seq<Cell>, out: seq<Cell>)
    requires 1 <= |cells| <= |out|
    requires CellEncodable(cells[0]) && out[0] == EmptyCell
    requires CellsRoundTrip(cells[1..], out[1..])
    ensures CellsRoundTrip(cells, out)
  {
    var c, more := cells[0], cells[1..];
    DecodeEncodedCell(c, out[0].info);
    var head := ServedCellsItem(EncodeCell(c.info).value, c.sysInfo);
    var tail := EncodeCells(more).value;
    EncodeCellsCons(cells);
    var items := [head] + tail;
    ItemsWellFormedCons(head, tail);
    var rest := TransmittedCells(more) + out[1..][|more|..];
    DecodeCellsCons(items, out, Transmitted(c), rest);
    ConsAppend(Transmitted(c), TransmittedCells(more), out, |cells|);
  }

  lemma {:induction false} EncodeCellsCons(cells: seq<Cell>)
    requires |cells| >= 1 && EncodeCell(cells[0].info).Ok? && EncodeCells(cells[1..]).Ok?
    ensures EncodeCells(cells) == Ok([ServedCellsItem(EncodeCell(cells[0].info).value, cells[0].sysInfo)] + EncodeCells(cells[1..]).value)
  {
  }

  lemma {:induction false} ItemsWellFormedCons(head: ServedCellsItem, tail: seq<ServedCellsItem>)
    requires CellIeWellFormed(head.info) && ItemsWellFormed(tail)
    ensures ItemsWellFormed([head] + tail) && ([head] + tail)[0] == head && ([head] + tail)[1..] == tail
  {
    var items := [head] + tail;
    assert forall i :: 1 <= i < |items| ==> items[i] == tail[i - 1];
  }

  lemma {:induction false} ConsAppend(x: Cell, xs: seq<Cell>, out: seq<Cell>, n: nat)
    requires n == 1 + |xs| <= |out|
    ensures [x] + (xs + out[1..][n - 1..]) == [x] + xs + out[n..]
  {
    assert out[1..][n - 1..] == out[n..];
  }

  lemma {:induction false} DecodeCellsCons(items: seq<ServedCellsItem>, out: seq<Cell>, c: Cell, rest: seq<Cell>)
    requires 1 <= |items| <= |out| && ItemsWellFormed(items)
    requires DecodeCell(items[0].info, out[0].info) == Accepted(c.info)
    requires c.sysInfo == (if items[0].sysInfo.Some? then items[0].sysInfo else out[0].sysInfo)
    requires DecodeCells(items[1..], out[1..]) == Accepted(rest)
    ensures DecodeCells(items, out) == Accepted([c] + rest)
  {
  }

  /** Decoding the encoded request into a zero-initialised output gives
    * the request back, up to what the encoder does not send, whenever the
    * decoder can accept it: at least one cell, a transaction id other
    * than -1, a name without NUL, cells the encoder can express. */
  lemma DecodeEncodedRequest(m: SetupRequest)
    requires WellSized(m) && m.numCells > 0 && m.transactionId != -1
    requires m.duName.Some? ==> 0 !in m.duName.value
    requires forall i :: 0 <= i < m.numCells ==> CellEncodable(m.cells[i])
    ensures EncodeRequest(m).Ok? && IesWellFormed(EncodeRequest(m).value, |m.cells|)
    ensures DecodeRequest(EncodeRequest(m).value, ZeroRequest(|m.cells|)) == Accepted(TransmittedRequest(m))
  {
    var out := ZeroRequest(|m.cells|);
    var used := m.cells[..m.numCells];
    assert EncodableInto(used, out.cells);
    DecodeEncodedCells(used, out.cells);
    var items := EncodeCells(used).value;
    var tail := [ServedCellsIe(items), RrcIe(m.rrcVer)];
    var ies := EncodeRequest(m).value;
    assert ies == [TransactionIdIe(m.transactionId)] + ([DuIdIe(m.duId)] + (NameIes(m.duName) + tail));
    var named := out.(transactionId := m.transactionId, duId := m.duId, duName := m.duName);
    DecodeRequestTail(items, m.rrcVer, named, TransmittedCells(used) + out.cells[m.numCells..]);
    DecodeRequestHead(m, out, tail);
    assert named.(numCells := |items|, cells := TransmittedCells(used) + out.cells[m.numCells..], rrcVer := m.rrcVer)
      == TransmittedRequest(m);
  }

  /** The IEs before the served cells set the transaction id, the DU id
    * and the name. */
  lemma {:induction false} DecodeRequestHead(m: SetupRequest, out: SetupRequest, rest: seq<SetupIe>)
    requires m.transactionId != -1 && (m.duName.Some? ==> 0 !in m.duName.value) && out.duName.None?
    requires IesWellFormed(rest, |out.cells|) && HasRrcVersion(rest)
    ensures var ies := [TransactionIdIe(m.transactionId)] + ([DuIdIe(m.duId)] + (NameIes(m.duName) + rest));
      IesWellFormed(ies, |out.cells|)
      && DecodeRequest(ies, out) == DecodeIes(rest, out.(transactionId := m.transactionId, duId := m.duId, duName := m.duName))
  {
    var fromName := NameIes(m.duName) + rest;
    var fromDu := [DuIdIe(m.duId)] + fromName;
    var ies := [TransactionIdIe(m.transactionId)] + fromDu;
    HeadWellFormed(m, out, rest);
    var o1 := out.(transactionId := m.transactionId);
    DecodeIesCons(TransactionIdIe(m.transactionId), fromDu, out);
    var o2 := o1.(duId := m.duId);
    DecodeIesCons(DuIdIe(m.duId), fromName, o1);
    DecodeName(m.duName, rest, o2);
  }

  lemma {:induction false} HeadWellFormed(m: SetupRequest, out: SetupRequest, rest: seq<SetupIe>)
    requires IesWellFormed(rest, |out.cells|) && HasRrcVersion(rest)
    ensures var fromName := NameIes(m.duName) + rest;
      var ies := [TransactionIdIe(m.transactionId)] + ([DuIdIe(m.duId)] + fromName);
      IesWellFormed(fromName, |out.cells|) && IesWellFormed([DuIdIe(m.duId)] + fromName, |out.cells|)
      && IesWellFormed(ies, |out.cells|)
      && HasTransactionId(ies) && HasDuId(ies) && HasRrcVersion(ies)
  {
    var n := |out.cells|;
    var fromName := NameIes(m.duName) + rest;
    var fromDu := [DuIdIe(m.duId)] + fromName;
    var ies := [TransactionIdIe(m.transactionId)] + fromDu;
    assert IesWellFormed(NameIes(m.duName), n);
    IesAppend(NameIes(m.duName), rest, n);
    IesAppend([DuIdIe(m.duId)], fromName, n);
    IesAppend([TransactionIdIe(m.transactionId)], fromDu, n);
    assert ies[0].TransactionIdIe? && ies[1].DuIdIe?;
  }

  /** Well-formedness and the presence of an RRC version IE carry over to
    * a longer IE list. */
  lemma {:induction false} IesAppend(a: seq<SetupIe>, b: seq<SetupIe>, n: nat)
    requires IesWellFormed(a, n) && IesWellFormed(b, n)
    ensures IesWellFormed(a + b, n)
    ensures HasRrcVersion(b) ==> HasRrcVersion(a + b)
  {
    assert forall k :: |a| <= k < |a + b| ==> (a + b)[k] == b[k - |a|];
    assert forall k :: 0 <= k < |a| ==> (a + b)[k] == a[k];
    if HasRrcVersion(b) {
      var j :| 0 <= j < |b| && b[j].RrcVersionIe?;
      assert (a + b)[|a| + j] == b[j];
    }
  }

  lemma {:induction false} DecodeName(duName: Option<seq<Byte>>, rest: seq<SetupIe>, o: SetupRequest)
    requires duName.Some? ==> 0 !in duName.value
    requires IesWellFormed(NameIes(duName) + rest, |o.cells|) && IesWellFormed(rest, |o.cells|)
    requires o.duName.None?
    ensures DecodeIes(NameIes(duName) + rest, o) == DecodeIes(rest, o.(duName := duName))
  {
    if duName.Some? {
      CStringOfCString(duName.value);
      DecodeIesCons(DuNameIe(duName.value), rest, o);
    } else {
      assert NameIes(duName) + rest == rest;
      assert o.(duName := duName) == o;
    }
  }

  /** The served cells and the RRC version complete the request. */
  lemma {:induction false} DecodeRequestTail(items: seq<ServedCellsItem>, rrcVer: seq<Byte>, o: SetupRequest, decoded: seq<Cell>)
    requires |items| > 0 && |rrcVer| == 3 && IeWellFormed(ServedCellsIe(items), |o.cells|)
    requires DecodeCells(items, o.cells) == Accepted(decoded)
    ensures IesWellFormed([ServedCellsIe(items), RrcIe(rrcVer)], |o.cells|) && HasRrcVersion([ServedCellsIe(items), RrcIe(rrcVer)])
    ensures DecodeIes([ServedCellsIe(items), RrcIe(rrcVer)], o) == Accepted(o.(numCells := |items|, cells := decoded, rrcVer := rrcVer))
  {
    var tail := [ServedCellsIe(items), RrcIe(rrcVer)];
    assert tail[1].RrcVersionIe?;
    var o4 := o.(numCells := |items|, cells := decoded);
    assert tail == [ServedCellsIe(items)] + [RrcIe(rrcVer)];
    DecodeIesCons(ServedCellsIe(items), [RrcIe(rrcVer)], o);
    assert [RrcIe(rrcVer)] == [RrcIe(rrcVer)] + [];
    DecodeIesCons(RrcIe(rrcVer), [], o4);
  }

  lemma CStringOfCString(s: seq<Byte>)
    requires 0 !in s
    ensures CString(s) == s
  {
    if s != [] {
      CStringOfCString(s[1..]);
    }
  }
}
