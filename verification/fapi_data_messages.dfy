/** Equality, deep copy and size accounting of the FAPI TX_DATA.request,
    RX_DATA.indication, CRC.indication and SLOT.indication messages.

    Payload words of a TX_DATA TLV are 32-bit values; copying `length`
    bytes of them with `memcpy` is modelled for a little-endian host, so a
    partial last word keeps its low-order bytes. The byte sizes of the C
    members that the size functions add up are parameters: the model fixes
    how they are combined, not the target's type layout. */
module FapiDataMessages {
  import opened Common
  import Arithmetic

  // ---------------------------------------------------------------
  // SLOT.indication
  // ---------------------------------------------------------------

  datatype SlotIndication = SlotIndication(messageId: int, messageLength: int, sfn: int, slot: int)

  predicate EqSlotIndication(a: SlotIndication, b: SlotIndication) {
    a.messageId == b.messageId && a.messageLength == b.messageLength && a.sfn == b.sfn && a.slot == b.slot
  }

  function CopySlotIndication(s: SlotIndication): SlotIndication {
    SlotIndication(s.messageId, s.messageLength, s.sfn, s.slot)
  }

  /** Every member of the slot indication is compared, so equality is
      plain equality and copy is the identity. */
  lemma SlotIndicationEqIsEquality(a: SlotIndication, b: SlotIndication)
    ensures EqSlotIndication(a, b) <==> a == b
    ensures CopySlotIndication(a) == a
  {
  }

  // ---------------------------------------------------------------
  // TX_DATA.request TLVs
  // ---------------------------------------------------------------

  const DirectTag := 0
  const PointerTag := 1

  /** Number of 32-bit words that hold `length` payload bytes. */
  function ValueWords(length: nat): (w: nat)
    ensures 4 * w >= length && 4 * w < length + 4
  {
    (length + 3) / 4
  }

  predicate IsWord(x: int) {
    0 <= x < 0x1_0000_0000
  }

  /** A TLV carries its payload either inline (`direct`, tag 0) or through
      a pointer (`ptr`, tag 1); the C union is modelled as two members. */
  datatype Tlv = Tlv(tag: int, length: nat, direct: seq<int>, ptr: seq<int>)

  predicate TlvShaped(t: Tlv) {
    (t.tag == DirectTag ==> ValueWords(t.length) <= |t.direct|)
    && (t.tag == PointerTag ==>
          ValueWords(t.length) <= |t.ptr| && forall i :: 0 <= i < |t.ptr| ==> IsWord(t.ptr[i]))
  }

  predicate SupportedTag(t: Tlv) {
    t.tag == DirectTag || t.tag == PointerTag
  }

  /** `eq_tx_data_request_PDU` on one TLV: the words holding the payload
      are compared, and a TLV with another tag compares on tag and length
      only. */
  predicate TlvEq(a: Tlv, b: Tlv)
    requires TlvShaped(a) && TlvShaped(b)
  {
    var w := ValueWords(a.length);
    a.tag == b.tag && a.length == b.length
    && (if a.tag == DirectTag then a.direct[..w] == b.direct[..w]
        else if a.tag == PointerTag then a.ptr[..w] == b.ptr[..w]
        else true)
  }

  /** Low `k` bytes of a word. */
  function LowBytes(x: int, k: nat): (r: int)
    requires x >= 0
    ensures 0 <= r <= x
  {
    Arithmetic.ModAtMost(x, Pow2(8 * k));
    x % Pow2(8 * k)
  }

  /** `memcpy` of `length` bytes from `src` into a zeroed buffer of
      `ValueWords(length)` words. */
  function CopyBytes(src: seq<int>, length: nat): (d: seq<int>)
    requires ValueWords(length) <= |src| && forall i :: 0 <= i < |src| ==> IsWord(src[i])
    ensures |d| == ValueWords(length) && forall i :: 0 <= i < |d| ==> IsWord(d[i])
  {
    seq(ValueWords(length), i requires 0 <= i < ValueWords(length) => CopiedWord(src[i], i, length))
  }

  /** Word `i` of the copy: whole when the payload covers it, otherwise its
      low `length - 4i` bytes. */
  function CopiedWord(w: int, i: nat, length: nat): (r: int)
    requires IsWord(w) && i < ValueWords(length)
    ensures IsWord(r) && (4 * (i + 1) <= length ==> r == w)
  {
    if 4 * (i + 1) <= length then w else LowBytes(w, length - 4 * i)
  }

  /** `copy_tx_data_request_PDU` on one TLV: tag 0 copies the whole inline
      array, tag 1 allocates `(length+3)/4` words and copies `length`
      bytes into them, any other tag stops the program. */
  function CopyTlv(s: Tlv): (r: Outcome<Tlv>)
    requires TlvShaped(s)
    ensures r.Ok? <==> SupportedTag(s)
    ensures r.Ok? && s.tag == PointerTag ==> |r.value.ptr| == ValueWords(s.length)
    ensures r.Ok? ==> TlvShaped(r.value) && r.value.tag == s.tag && r.value.length == s.length
  {
    if s.tag == DirectTag then Ok(Tlv(DirectTag, s.length, s.direct, []))
    else if s.tag == PointerTag then Ok(Tlv(PointerTag, s.length, [], CopyBytes(s.ptr, s.length)))
    else Fatal
  }

  /** The bytes past `length` in the last pointer word are zero. */
  predicate PaddingClear(t: Tlv)
    requires TlvShaped(t)
  {
    t.tag == PointerTag && t.length % 4 != 0 ==>
      t.ptr[ValueWords(t.length) - 1] < Pow2(8 * (t.length % 4))
  }

  /** The partial last word of a payload holds `length % 4` bytes. */
  lemma LastWordBytes(length: nat)
    requires length % 4 != 0
    ensures ValueWords(length) >= 1
    ensures length - 4 * (ValueWords(length) - 1) == length % 4
    ensures 4 * ValueWords(length) > length
  {
    var q, r := length / 4, length % 4;
    Arithmetic.DivModUnique(length + 3, 4, q + 1, r - 1);
  }

  /** Copying a supported TLV and comparing it with its source yields true
      exactly when the source's padding bytes are zero: `memcpy` copies
      `length` bytes but the comparison reads whole words. */
  lemma TlvCopyThenEqIffPaddingClear(s: Tlv)
    requires TlvShaped(s) && SupportedTag(s)
    ensures TlvEq(s, CopyTlv(s).value) <==> PaddingClear(s)
  {
    var c := CopyTlv(s).value;
    var w := ValueWords(s.length);
    if s.tag == PointerTag {
      if s.length % 4 == 0 {
        Arithmetic.DivModUnique(s.length + 3, 4, s.length / 4, 3);
        forall i | 0 <= i < w ensures c.ptr[i] == s.ptr[i] {
          assert 4 * (i + 1) <= s.length;
        }
        assert c.ptr[..w] == s.ptr[..w];
      } else {
        LastWordBytes(s.length);
        var last := w - 1;
        var m := Pow2(8 * (s.length % 4));
        assert c.ptr[last] == s.ptr[last] % m;
        forall i | 0 <= i < last ensures c.ptr[i] == s.ptr[i] {
          assert 4 * (i + 1) <= s.length;
        }
        if PaddingClear(s) {
          Arithmetic.ModSmall(s.ptr[last], m);
          assert c.ptr[..w] == s.ptr[..w];
        }
        if TlvEq(s, c) {
          assert s.ptr[..w][last] == c.ptr[..w][last];
        }
      }
    }
  }

  /** A pointer TLV whose padding byte is set does not compare equal to
      its own copy. */
  lemma TlvCopyPaddingExample()
    ensures var s := Tlv(PointerTag, 1, [], [0x100]);
            TlvShaped(s) && !TlvEq(s, CopyTlv(s).value)
  {
    var s := Tlv(PointerTag, 1, [], [0x100]);
    assert CopyBytes(s.ptr, 1)[0] == 0x100 % 256;
  }

  // ---------------------------------------------------------------
  // TX_DATA.request
  // ---------------------------------------------------------------

  datatype TxPdu = TxPdu(pduLength: int, pduIndex: int, numTlv: nat, tlvs: seq<Tlv>)

  datatype TxDataRequest =
    TxDataRequest(messageId: int, messageLength: int, sfn: int, slot: int, numPdus: nat, pdus: seq<TxPdu>)

  predicate TxPduShaped(p: TxPdu) {
    p.numTlv <= |p.tlvs| && forall k :: 0 <= k < p.numTlv ==> TlvShaped(p.tlvs[k])
  }

  predicate TxDataShaped(r: TxDataRequest) {
    r.numPdus <= |r.pdus| && forall i :: 0 <= i < r.numPdus ==> TxPduShaped(r.pdus[i])
  }

  predicate TxPduEq(a: TxPdu, b: TxPdu)
    requires TxPduShaped(a) && TxPduShaped(b)
  {
    a.pduLength == b.pduLength && a.pduIndex == b.pduIndex && a.numTlv == b.numTlv
    && forall k :: 0 <= k < a.numTlv ==> TlvEq(a.tlvs[k], b.tlvs[k])
  }

  /** `eq_tx_data_request`. */
  predicate EqTxDataRequest(a: TxDataRequest, b: TxDataRequest)
    requires TxDataShaped(a) && TxDataShaped(b)
  {
    a.messageId == b.messageId && a.messageLength == b.messageLength
    && a.sfn == b.sfn && a.slot == b.slot && a.numPdus == b.numPdus
    && forall i :: 0 <= i < a.numPdus ==> TxPduEq(a.pdus[i], b.pdus[i])
  }

  predicate TxPduSupported(p: TxPdu)
    requires p.numTlv <= |p.tlvs|
  {
    forall k :: 0 <= k < p.numTlv ==> SupportedTag(p.tlvs[k])
  }

  predicate TxDataSupported(r: TxDataRequest)
    requires TxDataShaped(r)
  {
    forall i :: 0 <= i < r.numPdus ==> TxPduSupported(r.pdus[i])
  }

  predicate TxDataPaddingClear(r: TxDataRequest)
    requires TxDataShaped(r)
  {
    forall i, k :: 0 <= i < r.numPdus && 0 <= k < r.pdus[i].numTlv ==> PaddingClear(r.pdus[i].tlvs[k])
  }

  function CopyTxPdu(s: TxPdu): (d: TxPdu)
    requires TxPduShaped(s) && TxPduSupported(s)
    ensures TxPduShaped(d) && d.numTlv == s.numTlv && |d.tlvs| == s.numTlv
  {
    TxPdu(s.pduLength, s.pduIndex, s.numTlv,
          seq(s.numTlv, k requires 0 <= k < s.numTlv => CopyTlv(s.tlvs[k]).value))
  }

  /** `copy_tx_data_request`: stops the program when a TLV within the
      counts has a tag other than 0 or 1. */
  function CopyTxDataRequest(s: TxDataRequest): (r: Outcome<TxDataRequest>)
    requires TxDataShaped(s)
    ensures r.Ok? <==> TxDataSupported(s)
    ensures r.Ok? ==> TxDataShaped(r.value) && |r.value.pdus| == s.numPdus
  {
    if !TxDataSupported(s) then Fatal
    else
      Ok(TxDataRequest(s.messageId, s.messageLength, s.sfn, s.slot, s.numPdus,
                       seq(s.numPdus, i requires 0 <= i < s.numPdus => CopyTxPdu(s.pdus[i]))))
  }

  /** Copy followed by comparison yields true whenever no pointer TLV has
      stray bytes in its padding. */
  lemma TxDataCopyThenEq(s: TxDataRequest)
    requires TxDataShaped(s) && TxDataSupported(s) && TxDataPaddingClear(s)
    ensures CopyTxDataRequest(s).Ok?
    ensures EqTxDataRequest(s, CopyTxDataRequest(s).value)
  {
    var c := CopyTxDataRequest(s).value;
    forall i | 0 <= i < s.numPdus
      ensures TxPduEq(s.pdus[i], c.pdus[i])
    {
      forall k | 0 <= k < s.pdus[i].numTlv
        ensures TlvEq(s.pdus[i].tlvs[k], c.pdus[i].tlvs[k])
      {
        TlvCopyThenEqIffPaddingClear(s.pdus[i].tlvs[k]);
      }
    }
  }

  /** The copy stops exactly on the first unsupported tag's presence; the
      comparison ignores such a TLV's payload. */
  lemma TxDataUnsupportedTag(a: TxDataRequest, b: TxDataRequest, i: nat, k: nat)
    requires TxDataShaped(a) && TxDataShaped(b)
    requires i < a.numPdus && k < a.pdus[i].numTlv && !SupportedTag(a.pdus[i].tlvs[k])
    requires i < b.numPdus && k < b.pdus[i].numTlv
    ensures CopyTxDataRequest(a) == Fatal
    ensures TlvEq(a.pdus[i].tlvs[k], b.pdus[i].tlvs[k]) <==>
              (a.pdus[i].tlvs[k].tag == b.pdus[i].tlvs[k].tag
               && a.pdus[i].tlvs[k].length == b.pdus[i].tlvs[k].length)
  {
  }

  // ---------------------------------------------------------------
  // get_tx_data_request_size
  // ---------------------------------------------------------------

  /** Byte sizes of the members that `get_tx_data_request_size` adds up;
      `direct` is the size of the inline payload array. */
  datatype TxDataSizes = TxDataSizes(header: nat, sfn: nat, slot: nat, numPdus: nat,
                                     pduLength: nat, pduIndex: nat, numTlv: nat,
                                     tag: nat, length: nat, direct: nat)

  /** Bytes accounted to one TLV: the whole inline array for tag 0, the
      allocated words for any other tag. */
  function TlvSize(z: TxDataSizes, t: Tlv): (n: nat)
    ensures t.tag != DirectTag ==> n >= z.tag + z.length + t.length
  {
    z.tag + z.length + (if t.tag == DirectTag then z.direct else 4 * ValueWords(t.length))
  }

  function TlvsSize(z: TxDataSizes, tlvs: seq<Tlv>): nat {
    if |tlvs| == 0 then 0 else TlvsSize(z, tlvs[..|tlvs| - 1]) + TlvSize(z, tlvs[|tlvs| - 1])
  }

  function TxPduSize(z: TxDataSizes, p: TxPdu): nat
    requires p.numTlv <= |p.tlvs|
  {
    z.pduLength + z.pduIndex + z.numTlv + TlvsSize(z, p.tlvs[..p.numTlv])
  }

  function TxPdusSize(z: TxDataSizes, pdus: seq<TxPdu>): nat
    requires forall i :: 0 <= i < |pdus| ==> pdus[i].numTlv <= |pdus[i].tlvs|
  {
    if |pdus| == 0 then 0 else TxPdusSize(z, pdus[..|pdus| - 1]) + TxPduSize(z, pdus[|pdus| - 1])
  }

  /** Total bytes of a TX_DATA.request: the fixed members, then for each
      PDU within the count its three members and its TLVs. */
  function TxDataRequestSize(z: TxDataSizes, r: TxDataRequest): nat
    requires TxDataShaped(r)
  {
    z.header + z.sfn + z.slot + z.numPdus + TxPdusSize(z, r.pdus[..r.numPdus])
  }

  /** The bytes accounted to a pointer TLV are exactly those its copy
      allocates. */
  lemma TlvSizeMatchesCopy(z: TxDataSizes, t: Tlv)
    requires TlvShaped(t) && t.tag == PointerTag
    ensures TlvSize(z, t) == z.tag + z.length + 4 * |CopyTlv(t).value.ptr|
  {
  }

  /** `get_tx_data_request_size`, with the loops of the source. */
  method GetTxDataRequestSize(z: TxDataSizes, r: TxDataRequest) returns (total: nat)
    requires TxDataShaped(r)
    ensures total == TxDataRequestSize(z, r)
  {
    total := z.header + z.sfn + z.slot + z.numPdus;
    var i := 0;
    while i < r.numPdus
      invariant 0 <= i <= r.numPdus
      invariant total == z.header + z.sfn + z.slot + z.numPdus + TxPdusSize(z, r.pdus[..i])
    {
      var pduTotal := GetTxPduSize(z, r.pdus[i]);
      total := total + pduTotal;
      assert r.pdus[..i + 1][..i] == r.pdus[..i];
      i := i + 1;
    }
    assert r.pdus[..r.numPdus] == r.pdus[..i];
  }

  /** The inner loop of `get_tx_data_request_size`: one PDU's members and
      its TLVs, each value rounded up to whole 32-bit words. */
  method GetTxPduSize(z: TxDataSizes, p: TxPdu) returns (pduTotal: nat)
    requires p.numTlv <= |p.tlvs|
    ensures pduTotal == TxPduSize(z, p)
  {
    pduTotal := z.pduLength + z.pduIndex + z.numTlv;
    var k := 0;
    while k < p.numTlv
      invariant 0 <= k <= p.numTlv
      invariant pduTotal == z.pduLength + z.pduIndex + z.numTlv + TlvsSize(z, p.tlvs[..k])
    {
      pduTotal := pduTotal + z.tag + z.length;
      if p.tlvs[k].tag == DirectTag {
        pduTotal := pduTotal + z.direct;
      } else {
        pduTotal := pduTotal + (p.tlvs[k].length + 3) / 4 * 4;
      }
      assert p.tlvs[..k + 1][..k] == p.tlvs[..k];
      k := k + 1;
    }
    assert p.tlvs[..p.numTlv] == p.tlvs[..k];
  }

  // ---------------------------------------------------------------
  // RX_DATA.indication
  // ---------------------------------------------------------------

  /** One received PDU: handle, RNTI, HARQ id, UL CQI, timing advance and
      RSSI in `fields`, then `pduLength` payload bytes. */
  datatype RxPdu = RxPdu(fields: seq<int>, pduLength: nat, pdu: seq<int>)

  datatype RxDataIndication =
    RxDataIndication(messageId: int, messageLength: int, sfn: int, slot: int, numberOfPdus: nat, pdus: seq<RxPdu>)

  predicate RxDataShaped(r: RxDataIndication) {
    r.numberOfPdus <= |r.pdus| && forall i :: 0 <= i < r.numberOfPdus ==> r.pdus[i].pduLength <= |r.pdus[i].pdu|
  }

  predicate RxPduEq(a: RxPdu, b: RxPdu)
    requires a.pduLength <= |a.pdu| && b.pduLength <= |b.pdu|
  {
    a.fields == b.fields && a.pduLength == b.pduLength && a.pdu[..a.pduLength] == b.pdu[..a.pduLength]
  }

  /** `eq_rx_data_indication`. */
  predicate EqRxDataIndication(a: RxDataIndication, b: RxDataIndication)
    requires RxDataShaped(a) && RxDataShaped(b)
  {
    a.messageId == b.messageId && a.messageLength == b.messageLength
    && a.sfn == b.sfn && a.slot == b.slot && a.numberOfPdus == b.numberOfPdus
    && forall i :: 0 <= i < a.numberOfPdus ==> RxPduEq(a.pdus[i], b.pdus[i])
  }

  function CopyRxPdu(s: RxPdu): RxPdu
    requires s.pduLength <= |s.pdu|
  {
    RxPdu(s.fields, s.pduLength, s.pdu[..s.pduLength])
  }

  /** `copy_rx_data_indication`: the list and each payload are allocated
      with exactly their counted length. */
  function CopyRxDataIndication(s: RxDataIndication): (d: RxDataIndication)
    requires RxDataShaped(s)
    ensures RxDataShaped(d) && |d.pdus| == s.numberOfPdus
    ensures forall i :: 0 <= i < |d.pdus| ==> |d.pdus[i].pdu| == s.pdus[i].pduLength
  {
    RxDataIndication(s.messageId, s.messageLength, s.sfn, s.slot, s.numberOfPdus,
                     seq(s.numberOfPdus, i requires 0 <= i < s.numberOfPdus => CopyRxPdu(s.pdus[i])))
  }

  lemma RxDataEqIffCopiesEqual(a: RxDataIndication, b: RxDataIndication)
    requires RxDataShaped(a) && RxDataShaped(b)
    ensures EqRxDataIndication(a, b) <==> CopyRxDataIndication(a) == CopyRxDataIndication(b)
  {
    var ca, cb := CopyRxDataIndication(a), CopyRxDataIndication(b);
    if EqRxDataIndication(a, b) {
      assert ca.pdus == cb.pdus;
    }
    if ca == cb {
      forall i | 0 <= i < a.numberOfPdus
        ensures RxPduEq(a.pdus[i], b.pdus[i])
      {
        assert ca.pdus[i] == cb.pdus[i];
      }
    }
  }

  lemma RxDataCopyThenEq(s: RxDataIndication)
    requires RxDataShaped(s)
    ensures EqRxDataIndication(s, CopyRxDataIndication(s))
  {
    var c := CopyRxDataIndication(s);
    forall i | 0 <= i < s.numberOfPdus
      ensures CopyRxPdu(c.pdus[i]) == c.pdus[i]
    {
      assert c.pdus[i].pdu[..c.pdus[i].pduLength] == c.pdus[i].pdu;
    }
    assert CopyRxDataIndication(c).pdus == c.pdus;
    RxDataEqIffCopiesEqual(s, c);
  }

  /** Byte sizes of the header members and of the fixed members of one
      received PDU. */
  datatype RxDataSizes = RxDataSizes(header: nat, sfn: nat, slot: nat, numberOfPdus: nat, pduFixed: nat)

  function RxPdusSize(z: RxDataSizes, pdus: seq<RxPdu>): nat {
    if |pdus| == 0 then 0
    else RxPdusSize(z, pdus[..|pdus| - 1]) + z.pduFixed + pdus[|pdus| - 1].pduLength
  }

  /** Size of an RX_DATA.indication: fixed members, then per PDU its fixed
      members and its payload length. */
  function RxDataIndicationSize(z: RxDataSizes, r: RxDataIndication): nat
    requires r.numberOfPdus <= |r.pdus|
  {
    z.header + z.sfn + z.slot + z.numberOfPdus + RxPdusSize(z, r.pdus[..r.numberOfPdus])
  }

  /** Total payload bytes of a list of received PDUs. */
  function PayloadBytes(pdus: seq<RxPdu>): nat {
    if |pdus| == 0 then 0 else PayloadBytes(pdus[..|pdus| - 1]) + pdus[|pdus| - 1].pduLength
  }

  /** The size is the fixed members of every PDU plus exactly one byte
      per payload byte. */
  lemma {:induction false} RxPdusSizeClosedForm(z: RxDataSizes, pdus: seq<RxPdu>)
    ensures RxPdusSize(z, pdus) == |pdus| * z.pduFixed + PayloadBytes(pdus)
    decreases |pdus|
  {
    if |pdus| > 0 {
      var n := |pdus|;
      var front, last := pdus[..n - 1], pdus[n - 1];
      RxPdusSizeClosedForm(z, front);
      var f := z.pduFixed;
      assert (n - 1) * f + f == n * f;
    }
  }

  /** `get_rx_data_indication_size`, with the loop of the source. */
  method GetRxDataIndicationSize(z: RxDataSizes, r: RxDataIndication) returns (total: nat)
    requires r.numberOfPdus <= |r.pdus|
    ensures total == RxDataIndicationSize(z, r)
  {
    total := z.header + z.sfn + z.slot + z.numberOfPdus;
    var i := 0;
    while i < r.numberOfPdus
      invariant 0 <= i <= r.numberOfPdus
      invariant total == z.header + z.sfn + z.slot + z.numberOfPdus + RxPdusSize(z, r.pdus[..i])
    {
      total := total + z.pduFixed + r.pdus[i].pduLength;
      assert r.pdus[..i + 1][..i] == r.pdus[..i];
      i := i + 1;
    }
    assert r.pdus[..r.numberOfPdus] == r.pdus[..i];
  }

  // ---------------------------------------------------------------
  // CRC.indication
  // ---------------------------------------------------------------

  /** Bytes of `cb_crc_status` for `numCb` code blocks: one more than
      `numCb/8`, which covers every code block's bit. */
  function CbCrcBytes(numCb: nat): (n: nat)
    ensures 8 * n > numCb
  {
    numCb / 8 + 1
  }

  /** One CRC report: handle, RNTI, HARQ id, TB CRC status, UL CQI, timing
      advance and RSSI in `fields`, then the per-code-block statuses. */
  datatype Crc = Crc(fields: seq<int>, numCb: nat, cbCrcStatus: seq<int>)

  datatype CrcIndication =
    CrcIndication(messageId: int, messageLength: int, sfn: int, slot: int, numberCrcs: nat, crcs: seq<Crc>)

  predicate CrcShaped(c: Crc) {
    c.numCb > 0 ==> CbCrcBytes(c.numCb) <= |c.cbCrcStatus|
  }

  predicate CrcIndicationShaped(r: CrcIndication) {
    r.numberCrcs <= |r.crcs| && forall i :: 0 <= i < r.numberCrcs ==> CrcShaped(r.crcs[i])
  }

  /** `eq_crc_indication_CRC`: the statuses are compared only when there
      are code blocks. */
  predicate CrcEq(a: Crc, b: Crc)
    requires CrcShaped(a) && CrcShaped(b)
  {
    a.fields == b.fields && a.numCb == b.numCb
    && (a.numCb > 0 ==> a.cbCrcStatus[..CbCrcBytes(a.numCb)] == b.cbCrcStatus[..CbCrcBytes(a.numCb)])
  }

  /** `eq_crc_indication`. */
  predicate EqCrcIndication(a: CrcIndication, b: CrcIndication)
    requires CrcIndicationShaped(a) && CrcIndicationShaped(b)
  {
    a.messageId == b.messageId && a.messageLength == b.messageLength
    && a.sfn == b.sfn && a.slot == b.slot && a.numberCrcs == b.numberCrcs
    && forall i :: 0 <= i < a.numberCrcs ==> CrcEq(a.crcs[i], b.crcs[i])
  }

  /** `copy_crc_indication_CRC`: the status array is allocated only when
      there are code blocks. */
  function CopyCrc(s: Crc): (d: Crc)
    requires CrcShaped(s)
    ensures CrcShaped(d)
    ensures |d.cbCrcStatus| == (if s.numCb > 0 then CbCrcBytes(s.numCb) else 0)
  {
    Crc(s.fields, s.numCb, if s.numCb > 0 then s.cbCrcStatus[..CbCrcBytes(s.numCb)] else [])
  }

  function CopyCrcIndication(s: CrcIndication): (d: CrcIndication)
    requires CrcIndicationShaped(s)
    ensures CrcIndicationShaped(d) && |d.crcs| == s.numberCrcs
  {
    CrcIndication(s.messageId, s.messageLength, s.sfn, s.slot, s.numberCrcs,
                  seq(s.numberCrcs, i requires 0 <= i < s.numberCrcs => CopyCrc(s.crcs[i])))
  }

  lemma CrcIndicationEqIffCopiesEqual(a: CrcIndication, b: CrcIndication)
    requires CrcIndicationShaped(a) && CrcIndicationShaped(b)
    ensures EqCrcIndication(a, b) <==> CopyCrcIndication(a) == CopyCrcIndication(b)
  {
    var ca, cb := CopyCrcIndication(a), CopyCrcIndication(b);
    if EqCrcIndication(a, b) {
      assert ca.crcs == cb.crcs;
    }
    if ca == cb {
      forall i | 0 <= i < a.numberCrcs
        ensures CrcEq(a.crcs[i], b.crcs[i])
      {
        assert ca.crcs[i] == cb.crcs[i];
      }
    }
  }

  lemma CrcIndicationCopyThenEq(s: CrcIndication)
    requires CrcIndicationShaped(s)
    ensures EqCrcIndication(s, CopyCrcIndication(s))
  {
    var c := CopyCrcIndication(s);
    forall i | 0 <= i < s.numberCrcs
      ensures CopyCrc(c.crcs[i]) == c.crcs[i]
    {
    }
    assert CopyCrcIndication(c).crcs == c.crcs;
    CrcIndicationEqIffCopiesEqual(s, c);
  }

  /** With no code blocks the status storage is never read. */
  lemma CrcStatusIgnoredWithoutCodeBlocks(a: Crc, b: Crc, status: seq<int>)
    requires CrcShaped(a) && CrcShaped(b) && a.numCb == 0
    ensures CrcEq(a, b) <==> CrcEq(a.(cbCrcStatus := status), b)
  {
  }

  /** Byte sizes of the header members and of the fixed members of one CRC. */
  datatype CrcSizes = CrcSizes(header: nat, sfn: nat, slot: nat, numberCrcs: nat, crcFixed: nat)

  function CrcSize(z: CrcSizes, c: Crc): nat {
    z.crcFixed + (if c.numCb > 0 then CbCrcBytes(c.numCb) else 0)
  }

  function CrcsSize(z: CrcSizes, crcs: seq<Crc>): nat {
    if |crcs| == 0 then 0 else CrcsSize(z, crcs[..|crcs| - 1]) + CrcSize(z, crcs[|crcs| - 1])
  }

  function CrcIndicationSize(z: CrcSizes, r: CrcIndication): nat
    requires r.numberCrcs <= |r.crcs|
  {
    z.header + z.sfn + z.slot + z.numberCrcs + CrcsSize(z, r.crcs[..r.numberCrcs])
  }

  /** The bytes accounted to one CRC beyond its fixed members are those its
      copy allocates. */
  lemma CrcSizeMatchesCopy(z: CrcSizes, c: Crc)
    requires CrcShaped(c)
    ensures CrcSize(z, c) == z.crcFixed + |CopyCrc(c).cbCrcStatus|
  {
  }

  /** `get_crc_indication_size`, with the loop of the source. */
  method GetCrcIndicationSize(z: CrcSizes, r: CrcIndication) returns (total: nat)
    requires r.numberCrcs <= |r.crcs|
    ensures total == CrcIndicationSize(z, r)
  {
    total := z.header + z.sfn + z.slot + z.numberCrcs;
    var i := 0;
    while i < r.numberCrcs
      invariant 0 <= i <= r.numberCrcs
      invariant total == z.header + z.sfn + z.slot + z.numberCrcs + CrcsSize(z, r.crcs[..i])
    {
      total := total + z.crcFixed;
      if r.crcs[i].numCb > 0 {
        total := total + r.crcs[i].numCb / 8 + 1;
      }
      assert r.crcs[..i + 1][..i] == r.crcs[..i];
      i := i + 1;
    }
    assert r.crcs[..r.numberCrcs] == r.crcs[..i];
  }
}
