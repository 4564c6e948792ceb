/** UE MAC table lookups: DMRS antenna ports for the DLSCH and the PUSCH
    and the PUSCH precoding information (TS 38.212 section 7.3.1), with
    the port bitmaps built by `packBits`. */
module MacTables {
  import opened Common
  import opened Arithmetic
  import opened MacTableData

  // ---------------------------------------------------------------
  // packBits
  // ---------------------------------------------------------------

  /** The value whose bit i is entry i of a 0/1 vector: the first entry
      is the least significant. */
  function PackValue(toPack: seq<nat>): nat {
    if |toPack| == 0 then 0 else toPack[0] + 2 * PackValue(toPack[1..])
  }

  /** Appending an entry adds it at weight 2^n. */
  lemma {:induction false} PackValueSnoc(toPack: seq<nat>, x: nat)
    ensures PackValue(toPack + [x]) == PackValue(toPack) + x * Pow2(|toPack|)
    decreases |toPack|
  {
    if |toPack| > 0 {
      var rest := toPack[1..];
      assert (toPack + [x])[1..] == rest + [x];
      PackValueSnoc(rest, x);
      assert 2 * (x * Pow2(|rest|)) == x * Pow2(|toPack|);
    } else {
      assert [x][1..] == [];
    }
  }

  /** `packBits`: entry i shifted left by i, summed from the first entry
      on. */
  method PackBits(toPack: seq<nat>) returns (res: nat)
    ensures res == PackValue(toPack)
  {
    res := 0;
    var weight := 1;
    var i := 0;
    while i < |toPack|
      invariant 0 <= i <= |toPack|
      invariant weight == Pow2(i)
      invariant res == PackValue(toPack[..i])
    {
      PackValueSnoc(toPack[..i], toPack[i]);
      assert toPack[..i + 1] == toPack[..i] + [toPack[i]];
      res := res + toPack[i] * weight;
      weight := 2 * weight;
      i := i + 1;
    }
    assert toPack[..i] == toPack;
  }

  /** The flags of the low `n` bits of a value. */
  function UnpackBits(x: nat, n: nat): (bits: seq<nat>)
    ensures |bits| == n && IsBitVector(bits)
    ensures forall i :: 0 <= i < n ==> (bits[i] == 1 <==> BitSet(x, i))
  {
    seq(n, i requires 0 <= i < n => if BitSet(x, i) then 1 else 0)
  }

  /** Bit q of x/2 is bit q+1 of x. */
  lemma HalfBit(x: nat, q: nat)
    ensures BitSet(x / 2, q) <==> BitSet(x, q + 1)
  {
    var d := Pow2(q);
    var h := x / 2;
    assert x == 2 * h + x % 2;
    assert h == d * (h / d) + h % d;
    assert x == (2 * d) * (h / d) + (2 * (h % d) + x % 2);
    assert 2 * (h % d) + x % 2 < 2 * d;
    DivModUnique(x, 2 * d, h / d, 2 * (h % d) + x % 2);
  }

  /** Packing 0/1 flags yields a value below 2^n whose bit i is flag i. */
  lemma {:induction false} PackValueBits(toPack: seq<nat>)
    requires IsBitVector(toPack)
    ensures PackValue(toPack) < Pow2(|toPack|)
    ensures forall i :: 0 <= i < |toPack| ==> (BitSet(PackValue(toPack), i) <==> toPack[i] == 1)
    decreases |toPack|
  {
    var n := |toPack|;
    if n > 0 {
      var b, rest := toPack[0], toPack[1..];
      assert IsBitVector(rest) by {
        forall i | 0 <= i < |rest| ensures rest[i] <= 1 {
          assert rest[i] == toPack[i + 1];
        }
      }
      PackValueBits(rest);
      var p := PackValue(rest);
      var x := PackValue(toPack);
      assert x == b + 2 * p;
      DivModUnique(x, 2, p, b);
      forall i | 0 <= i < n
        ensures BitSet(x, i) <==> toPack[i] == 1
      {
        if i > 0 {
          HalfBit(x, i - 1);
          assert rest[i - 1] == toPack[i];
        }
      }
    }
  }

  /** Unpacking inverts packing on 0/1 flags. */
  lemma PackUnpack(toPack: seq<nat>)
    requires IsBitVector(toPack)
    ensures UnpackBits(PackValue(toPack), |toPack|) == toPack
  {
    PackValueBits(toPack);
  }

  /** Two values below 2^n with the same low n bits are equal. */
  lemma {:induction false} BitsDetermineValue(x: nat, y: nat, n: nat)
    requires x < Pow2(n) && y < Pow2(n)
    requires forall q :: 0 <= q < n ==> (BitSet(x, q) <==> BitSet(y, q))
    ensures x == y
    decreases n
  {
    if n > 0 {
      assert BitSet(x, 0) <==> BitSet(y, 0);
      assert x % 2 == y % 2;
      forall q | 0 <= q < n - 1
        ensures BitSet(x / 2, q) <==> BitSet(y / 2, q)
      {
        HalfBit(x, q);
        HalfBit(y, q);
      }
      BitsDetermineValue(x / 2, y / 2, n - 1);
    }
  }

  /** 2^p has bit p and no other. */
  lemma {:induction false} OneHotBit(p: nat, q: nat)
    ensures BitSet(Pow2(p), q) <==> q == p
    decreases q
  {
    if q > 0 {
      if p > 0 {
        assert Pow2(p) / 2 == Pow2(p - 1);
        HalfBit(Pow2(p), q - 1);
        OneHotBit(p - 1, q - 1);
      } else {
        HalfBit(1, q - 1);
        assert BitSet(0, q - 1) == false;
      }
    } else if p > 0 {
      assert Pow2(p) == 2 * Pow2(p - 1);
    }
  }

  // ---------------------------------------------------------------
  // DLSCH antenna ports (TS 38.212 Tables 7.3.1.2.2-1 to -4)
  // ---------------------------------------------------------------

  /** The DMRS fields of a DLSCH PDU that the antenna-port lookup fills. */
  datatype DlschDmrs = DlschDmrs(cdmGroups: nat, dmrsPorts: nat, frontLoadSymbols: nat)

  /** Port flags per row of the DL table selected by DMRS type and length. */
  function DlPortFlags(dmrsType2: bool, maxLength2: bool): nat {
    if !dmrsType2 then (if maxLength2 then 8 else 4)
    else (if maxLength2 then 12 else 6)
  }

  /** Rows of the DL table for the type, length and codeword count; 0
      when the code selects no table (a codeword count other than 1 or 2
      outside type 1 with one symbol). */
  function DlPortRows(dmrsType2: bool, maxLength2: bool, nCw: int): nat {
    if !dmrsType2 && !maxLength2 then 12
    else if nCw != 1 && nCw != 2 then 0
    else if !dmrsType2 then (if nCw == 1 then 31 else 4)
    else if !maxLength2 then (if nCw == 1 then 24 else 2)
    else (if nCw == 1 then 58 else 6)
  }

  function DlPortRow(dmrsType2: bool, maxLength2: bool, nCw: int, ant: nat): (row: seq<nat>)
    requires ant < DlPortRows(dmrsType2, maxLength2, nCw)
    ensures |row| == 1 + DlPortFlags(dmrsType2, maxLength2) + (if maxLength2 then 1 else 0)
    ensures forall k :: 1 <= k <= DlPortFlags(dmrsType2, maxLength2) ==> row[k] <= 1
  {
    if !dmrsType2 && !maxLength2 then DlPortsType1Len1(ant)
    else if !dmrsType2 then (if nCw == 1 then DlPortsType1Len2OneCw(ant) else DlPortsType1Len2TwoCw(ant))
    else if !maxLength2 then (if nCw == 1 then DlPortsType2Len1OneCw(ant) else DlPortsType2Len1TwoCw(ant))
    else (if nCw == 1 then DlPortsType2Len2OneCw(ant) else DlPortsType2Len2TwoCw(ant))
  }

  /** `set_antenna_port_parameters`: the CDM groups, the DMRS port bitmap
      and, for two-symbol DMRS, the front-loaded symbols of row `ant` of
      the table chosen by DMRS type, length and codeword count. Bit p of
      the bitmap is set exactly when the row lists port 1000+p. With no
      table for the codeword count nothing changes. */
  function SetAntennaPortParameters(pdu: DlschDmrs, nCw: int, maxLength2: bool, dmrsType2: bool, ant: nat): (r: DlschDmrs)
    requires DlPortRows(dmrsType2, maxLength2, nCw) == 0 || ant < DlPortRows(dmrsType2, maxLength2, nCw)
    ensures DlPortRows(dmrsType2, maxLength2, nCw) == 0 ==> r == pdu
    ensures DlPortRows(dmrsType2, maxLength2, nCw) > 0 ==>
      var row := DlPortRow(dmrsType2, maxLength2, nCw, ant);
      var flags := DlPortFlags(dmrsType2, maxLength2);
      && r.cdmGroups == row[0]
      && r.dmrsPorts < Pow2(flags)
      && (forall p :: 0 <= p < flags ==> (BitSet(r.dmrsPorts, p) <==> row[1 + p] == 1))
      && r.frontLoadSymbols == (if maxLength2 then row[1 + flags] else pdu.frontLoadSymbols)
  {
    if DlPortRows(dmrsType2, maxLength2, nCw) == 0 then pdu
    else
      var row := DlPortRow(dmrsType2, maxLength2, nCw, ant);
      var flags := DlPortFlags(dmrsType2, maxLength2);
      DlschDmrs(row[0], RowBitmap(row, flags), if maxLength2 then row[1 + flags] else pdu.frontLoadSymbols)
  }

  /** The port flags that follow the CDM-group entry of a row, packed. */
  function RowBitmap(row: seq<nat>, flags: nat): (x: nat)
    requires 1 + flags <= |row|
    requires forall k :: 1 <= k <= flags ==> row[k] <= 1
    ensures x < Pow2(flags)
    ensures forall p :: 0 <= p < flags ==> (BitSet(x, p) <==> row[1 + p] == 1)
  {
    var bits := row[1..1 + flags];
    assert IsBitVector(bits) by {
      forall i | 0 <= i < |bits| ensures bits[i] <= 1 {
        assert bits[i] == row[1 + i];
      }
    }
    PackValueBits(bits);
    PackValue(bits)
  }

  // ---------------------------------------------------------------
  // PUSCH antenna ports (TS 38.212 Tables 7.3.1.1.2-6 to -23)
  // ---------------------------------------------------------------

  /** The PUSCH PDU's DMRS fields and the front-loaded symbol count the
      caller receives. */
  datatype PuschDmrs = PuschDmrs(cdmGroups: nat, dmrsPorts: nat, frontLoadSymbols: nat)

  /** Highest DMRS port count of any PUSCH table (type 2, two symbols). */
  const MaxUlDmrsPorts := 12

  /** One flag per DMRS port, set for the ports listed. */
  function PortFlags(ports: seq<nat>, n: nat): (flags: seq<nat>)
    ensures |flags| == n && IsBitVector(flags)
    ensures forall q :: 0 <= q < n ==> (flags[q] == 1 <==> q in ports)
  {
    seq(n, q requires 0 <= q < n => if q in ports then 1 else 0)
  }

  /** The DMRS port bitmap naming the listed ports: bit q is set exactly
      for the listed ports. */
  function UlDmrsPorts(ports: seq<nat>): (bitmap: nat)
    ensures bitmap < Pow2(MaxUlDmrsPorts)
    ensures forall q :: 0 <= q < MaxUlDmrsPorts ==> (BitSet(bitmap, q) <==> q in ports)
  {
    var flags := PortFlags(ports, MaxUlDmrsPorts);
    PackValueBits(flags);
    PackValue(flags)
  }

  /** The code's port bitmap for a table row: one port is shifted into
      place, but several are handed to `packBits` as if they were flags. */
  function UlDmrsPortsAsWritten(ports: seq<nat>): nat
    requires |ports| > 0
  {
    if |ports| == 1 then Pow2(ports[0]) else PackValue(ports)
  }

  /** For a single port the code's rule and the bitmap agree. */
  lemma SinglePortAgrees(p: nat)
    requires p < MaxUlDmrsPorts
    ensures UlDmrsPortsAsWritten([p]) == UlDmrsPorts([p])
  {
    forall q | 0 <= q < MaxUlDmrsPorts
      ensures BitSet(Pow2(p), q) <==> BitSet(UlDmrsPorts([p]), q)
    {
      OneHotBit(p, q);
    }
    PowMonotone(p + 1, MaxUlDmrsPorts);
    BitsDetermineValue(Pow2(p), UlDmrsPorts([p]), MaxUlDmrsPorts);
  }

  /** The tables behind the type 1, one-symbol rows are written out in the
      code; every other disabled-precoding case reads one of these. */
  function UlPortRows(dmrsType2: bool, maxLength2: bool, rank: nat): nat {
    if !dmrsType2 && maxLength2 then
      (match rank case 1 => 14 case 2 => 10 case 3 => 3 case 4 => 4 case _ => 0)
    else if dmrsType2 && !maxLength2 then
      (match rank case 1 => 12 case 2 => 7 case 3 => 3 case 4 => 2 case _ => 0)
    else if dmrsType2 && maxLength2 then
      (match rank case 1 => 28 case 2 => 19 case 3 => 6 case 4 => 5 case _ => 0)
    else 0
  }

  function UlPortRow(dmrsType2: bool, maxLength2: bool, rank: nat, val: nat): (row: seq<nat>)
    requires val < UlPortRows(dmrsType2, maxLength2, rank)
    ensures |row| == 1 + rank + (if maxLength2 then 1 else 0)
    ensures forall k :: 1 <= k <= rank ==> row[k] < MaxUlDmrsPorts
  {
    if !dmrsType2 then
      (match rank case 1 => UlPortsTable12(val) case 2 => UlPortsTable13(val)
                  case 3 => UlPortsTable14(val) case _ => UlPortsTable15(val))
    else if !maxLength2 then
      (match rank case 1 => UlPortsTable16(val) case 2 => UlPortsTable17(val)
                  case 3 => UlPortsTable18(val) case _ => UlPortsTable19(val))
    else
      (match rank case 1 => UlPortsTable20(val) case 2 => UlPortsTable21(val)
                  case 3 => UlPortsTable22(val) case _ => UlPortsTable23(val))
  }

  /** Which antenna-port rule applies to a PUSCH. */
  predicate TableDriven(transformPrecoding: bool, dmrsType2: bool, maxLength2: bool, rank: nat) {
    !transformPrecoding && (dmrsType2 || maxLength2) && 1 <= rank <= 4
  }

  /** `ul_ports_config` with the port bitmap built from the ports a table
      row lists. Transform precoding uses DMRS type 1 only; with DMRS type
      1 and one symbol the code spells the tables out; otherwise the row
      `val` of the table for the type, length and rank applies. A rank
      outside 1..4 (or transform precoding with type 2) changes nothing. */
  function UlPortsConfig(pusch: PuschDmrs, transformPrecoding: bool, dmrsType2: bool, maxLength2: bool,
                         rank: nat, val: nat): (r: PuschDmrs)
    requires TableDriven(transformPrecoding, dmrsType2, maxLength2, rank) ==> val < UlPortRows(dmrsType2, maxLength2, rank)
    ensures transformPrecoding && !dmrsType2 && !maxLength2 ==>
      r == pusch.(cdmGroups := 2, dmrsPorts := Pow2(val))
    ensures transformPrecoding && !dmrsType2 && maxLength2 ==>
      r == PuschDmrs(2, Pow2(if val > 3 then val - 4 else val), if val > 3 then 2 else 1)
    ensures transformPrecoding && dmrsType2 ==> r == pusch
    ensures !transformPrecoding && !dmrsType2 && !maxLength2 && rank == 3 ==> r == pusch.(cdmGroups := 2, dmrsPorts := 0x7)
    ensures !transformPrecoding && !dmrsType2 && !maxLength2 && rank == 4 ==> r == pusch.(cdmGroups := 2, dmrsPorts := 0xf)
    ensures !transformPrecoding && (rank < 1 || rank > 4) ==> r == pusch
    ensures TableDriven(transformPrecoding, dmrsType2, maxLength2, rank) ==>
      var row := UlPortRow(dmrsType2, maxLength2, rank, val);
      && r.cdmGroups == row[0]
      && (forall q :: 0 <= q < MaxUlDmrsPorts ==> (BitSet(r.dmrsPorts, q) <==> q in row[1..1 + rank]))
      && r.frontLoadSymbols == (if maxLength2 then row[1 + rank] else pusch.frontLoadSymbols)
  {
    if transformPrecoding then
      if dmrsType2 then pusch
      else if !maxLength2 then pusch.(cdmGroups := 2, dmrsPorts := Pow2(val))
      else PuschDmrs(2, Pow2(if val > 3 then val - 4 else val), if val > 3 then 2 else 1)
    else if !dmrsType2 && !maxLength2 then
      match rank
      case 1 => pusch.(cdmGroups := if val > 1 then 2 else 1, dmrsPorts := Pow2(if val > 1 then val - 2 else val))
      case 2 => pusch.(cdmGroups := if val > 0 then 2 else 1, dmrsPorts := if val > 1 then (if val > 2 then 0x5 else 0xc) else 0x3)
      case 3 => pusch.(cdmGroups := 2, dmrsPorts := 0x7)
      case 4 => pusch.(cdmGroups := 2, dmrsPorts := 0xf)
      case _ => pusch
    else if 1 <= rank <= 4 then
      var row := UlPortRow(dmrsType2, maxLength2, rank, val);
      PuschDmrs(row[0], UlDmrsPorts(row[1..1 + rank]), if maxLength2 then row[1 + rank] else pusch.frontLoadSymbols)
    else pusch
  }

  /** Rows of Tables 7.3.1.1.2-8 to -11 of TS 38.212 (DMRS type 1, one
      front-loaded symbol, transform precoding disabled) for ranks 1 to 4. */
  function Type1OneSymbolRows(rank: nat): nat {
    match rank case 1 => 6 case 2 => 4 case 3 => 1 case 4 => 1 case _ => 0
  }

  /** Row `val` of those tables: the CDM group count followed by the
      `rank` antenna ports. */
  function Type1OneSymbolRow(rank: nat, val: nat): (row: seq<nat>)
    requires val < Type1OneSymbolRows(rank)
    ensures |row| == 1 + rank
  {
    match rank
    case 1 => [[1, 0], [1, 1], [2, 0], [2, 1], [2, 2], [2, 3]][val]
    case 2 => [[1, 0, 1], [2, 0, 1], [2, 2, 3], [2, 0, 2]][val]
    case 3 => [2, 0, 1, 2]
    case _ => [2, 0, 1, 2, 3]
  }

  /** A value below 16 has bits 0 to 3 only. */
  lemma NibbleBits(x: nat, q: nat)
    requires x < 16
    ensures BitSet(x, q) <==> q < 4 && (x / [1, 2, 4, 8][q]) % 2 == 1
  {
    if q >= 4 {
      PowMonotone(4, q);
      DivModUnique(x, Pow2(q), 0, x);
    } else {
      assert Pow2(q) == [1, 2, 4, 8][q] by {
        assert Pow2(1) == 2 && Pow2(2) == 4 && Pow2(3) == 8;
      }
    }
  }

  /** The CDM group count and port bitmap the code writes out for DMRS
      type 1 with one symbol are exactly the rows of the standard's
      tables: bit q of the bitmap is set iff the row lists port q, and the
      front-loaded symbol count is left alone. */
  lemma UlPortsType1OneSymbol(pusch: PuschDmrs, rank: nat, val: nat)
    requires val < Type1OneSymbolRows(rank)
    ensures var r := UlPortsConfig(pusch, false, false, false, rank, val);
            var row := Type1OneSymbolRow(rank, val);
            && r.cdmGroups == row[0]
            && (forall q :: 0 <= q < MaxUlDmrsPorts ==> (BitSet(r.dmrsPorts, q) <==> q in row[1..]))
            && r.frontLoadSymbols == pusch.frontLoadSymbols
  {
    var r := UlPortsConfig(pusch, false, false, false, rank, val);
    var row := Type1OneSymbolRow(rank, val);
    forall q | 0 <= q < MaxUlDmrsPorts
      ensures BitSet(r.dmrsPorts, q) <==> q in row[1..]
    {
      if rank == 1 {
        var p := if val > 1 then val - 2 else val;
        assert row[1..] == [p];
        OneHotBit(p, q);
      } else {
        NibbleBits(r.dmrsPorts, q);
      }
    }
  }

  /** Row 0 of Table 7.3.1.1.2-13 lists ports 0 and 1; the code's bitmap
      is 2, which names port 1 only, where 3 names both. */
  lemma AsWrittenUlPortsDropPort()
    ensures UlPortRow(false, true, 2, 0)[1..3] == [0, 1]
    ensures UlDmrsPortsAsWritten([0, 1]) == 2
    ensures !BitSet(2, 0)
    ensures BitSet(UlDmrsPorts([0, 1]), 0) && BitSet(UlDmrsPorts([0, 1]), 1)
  {
    assert UlPortRow(false, true, 2, 0) == [1, 0, 1, 1];
    assert PackValue([0, 1]) == 0 + 2 * PackValue([1]);
    assert [0, 1][1..] == [1];
    assert PackValue([1]) == 1 + 2 * PackValue([]);
    assert [1][1..] == [];
  }

  // ---------------------------------------------------------------
  // PUSCH precoding information (TS 38.212 Tables 7.3.1.1.2-2 to -5)
  // ---------------------------------------------------------------

  datatype CodebookSubset = FullyAndPartialAndNonCoherent | PartialAndNonCoherent | NonCoherent

  datatype PuschPrecoding = PuschPrecoding(nrOfLayers: nat, tpmi: nat)

  /** The first of the two columns (layers, TPMI) the code reads for the
      port count, transform precoding, maxRank and codebook subset; none
      when no table applies. */
  function PrecodingColumn(nPorts: int, transformPrecoding: bool, maxRank: int, subset: CodebookSubset): (c: Option<nat>)
    ensures c.Some? ==> c.value % 2 == 0 && c.value + 1 < 20
    ensures c.Some? && nPorts == 4 ==> (c.value < 6 <==> !transformPrecoding && 2 <= maxRank <= 4)
    ensures c.Some? && maxRank == 1 ==> c.value in {6, 8, 10, 16, 18}
    ensures c.Some? ==> (nPorts == 4 || nPorts == 2) && 1 <= maxRank <= 4
    ensures c.Some? && nPorts == 2 ==> c.value >= 12 && subset != PartialAndNonCoherent
  {
    var pair := match subset
      case FullyAndPartialAndNonCoherent => 0
      case PartialAndNonCoherent => 1
      case NonCoherent => 2;
    if nPorts == 4 then
      if !transformPrecoding && 2 <= maxRank <= 4 then Some(2 * pair)
      else if maxRank == 1 then Some(6 + 2 * pair)
      else None
    else if nPorts == 2 && subset != PartialAndNonCoherent then
      var half := if subset == NonCoherent then 2 else 0;
      if !transformPrecoding && maxRank == 2 then Some(12 + half)
      else if maxRank == 1 then Some(16 + half)
      else None
    else None
  }

  /** `set_precoding_information_parameters`: the number of layers and
      the TPMI for DCI precoding field `precodingInformation`, read from
      the columns the configuration selects; nothing changes when none
      applies. */
  function SetPrecodingInformation(pusch: PuschPrecoding, nPorts: int, transformPrecoding: bool,
                                   precodingInformation: nat, maxRank: int, subset: CodebookSubset): (r: PuschPrecoding)
    requires precodingInformation < 64
    ensures PrecodingColumn(nPorts, transformPrecoding, maxRank, subset).None? ==> r == pusch
    ensures PrecodingColumn(nPorts, transformPrecoding, maxRank, subset).Some? ==>
      var c := PrecodingColumn(nPorts, transformPrecoding, maxRank, subset).value;
      r == PuschPrecoding(PrecodingTable(precodingInformation)[c], PrecodingTable(precodingInformation)[c + 1])
    ensures PrecodingColumn(nPorts, transformPrecoding, maxRank, subset).Some? ==>
      r.nrOfLayers <= 4 && (nPorts == 2 ==> r.nrOfLayers <= 2) && (maxRank == 1 ==> r.nrOfLayers <= 1)
  {
    match PrecodingColumn(nPorts, transformPrecoding, maxRank, subset)
    case None => pusch
    case Some(c) =>
      var row := PrecodingTable(precodingInformation);
      PuschPrecoding(row[c], row[c + 1])
  }

  /** Of the four tables, the code picks Table 7.3.1.1.2-2 for four ports
      without transform precoding and maxRank 2 to 4, Table 7.3.1.1.2-3
      for four ports and maxRank 1, Table 7.3.1.1.2-4 for two ports without
      transform precoding and maxRank 2, Table 7.3.1.1.2-5 for two ports
      and maxRank 1; two ports never use the partially coherent subset. */
  lemma PrecodingColumnChoosesTable(nPorts: int, transformPrecoding: bool, maxRank: int, subset: CodebookSubset)
    ensures PrecodingColumn(nPorts, transformPrecoding, maxRank, subset).Some? <==>
      (nPorts == 4 && ((!transformPrecoding && 2 <= maxRank <= 4) || maxRank == 1))
      || (nPorts == 2 && subset != PartialAndNonCoherent && ((!transformPrecoding && maxRank == 2) || maxRank == 1))
  {
  }
}
