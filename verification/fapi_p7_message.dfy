/** The P7 message frame around a DL_TTI.request: an 8-byte header
    (message count 1, opaque handle 0, the 16-bit message type and the
    32-bit body length) followed by the body.

    The packer stops the program when the body cannot be packed, which
    covers a message type it does not know and a buffer that is too
    small; the unpacker stops it when the buffer cannot hold a header. */
module FapiP7Message {
  import opened Common
  import opened FapiWire
  import opened FapiDlTti
  import opened FapiDlTtiCodec
  import opened FapiDlTtiRequestCodec

  /** Bytes in front of the body. */
  const HeaderLength := 8

  /** The message type of DL_TTI.request in the SCF FAPI specification. */
  const DlTtiRequestId := 0x80

  /** The header the unpacker reads back. */
  datatype Header = Header(messageId: int, messageLength: int)

  /** The header as the packer writes it. */
  function PackHeader(id: int, len: int, tail: seq<Byte>): (bs: seq<Byte>)
    ensures |bs| == HeaderLength + |tail|
  {
    Push(W8, 1, Push(W8, 0, Push(W16, id, Push(W32, len, tail))))
  }

  /** The header as the unpacker reads it: the message count and the
      handle are read and dropped. */
  function PullHeader(s: seq<Byte>): (r: Option<Parsed<Header>>)
    ensures r.Some? <==> HeaderLength <= |s|
  {
    match Pull(W8, s)
    case None => None
    case Some(count) =>
      match Pull(W8, count.rest)
      case None => None
      case Some(handle) =>
        match Pull(W16, handle.rest)
        case None => None
        case Some(id) =>
          match Pull(W32, id.rest)
          case None => None
          case Some(len) => Some(Parsed(Header(id.value, len.value), len.rest))
  }

  lemma PullHeaderPacked(id: int, len: int, tail: seq<Byte>)
    requires Fits(W16, id) && Fits(W32, len)
    ensures PullHeader(PackHeader(id, len, tail)) == Some(Parsed(Header(id, len), tail))
  {
    var b3 := Push(W32, len, tail);
    var b2 := Push(W16, id, b3);
    var b1 := Push(W8, 0, b2);
    PullPushed(W32, len, tail);
    PullPushed(W16, id, b3);
    PullPushed(W8, 0, b2);
    PullPushed(W8, 1, b1);
  }

  // ---------------------------------------------------------------
  // The sizes the packer writes back into the message
  // ---------------------------------------------------------------

  function SizedPdus(L: DlLayouts, ps: seq<DlPdu>): (r: seq<DlPdu>)
    requires LayoutsShaped(L) && PdusPackable(L, ps)
    ensures |r| == |ps| && PdusPackable(L, r)
    decreases |ps|
  {
    if |ps| == 0 then []
    else
      var r := [SizedPdu(L, ps[0])] + SizedPdus(L, ps[1..]);
      assert r[1..] == SizedPdus(L, ps[1..]);
      r
  }

  /** The request as the packer leaves it: every counted PDU carries its
      packed size, and the message length is the body length. */
  function SentRequest(L: DlLayouts, r: DlTtiRequest, len: int): (u: DlTtiRequest)
    requires LayoutsShaped(L) && RequestPackable(L, r)
    ensures RequestPackable(L, u) && u.messageLength == len
    ensures u.nPdus == r.nPdus && u.pdus[..u.nPdus] == SizedPdus(L, r.pdus[..r.nPdus])
  {
    var sized := SizedPdus(L, r.pdus[..r.nPdus]);
    var u := r.(messageLength := len, pdus := sized + r.pdus[r.nPdus..]);
    assert u.pdus[..u.nPdus] == sized;
    u
  }

  // ---------------------------------------------------------------
  // fapi_nr_p7_message_pack
  // ---------------------------------------------------------------

  /** What a successful pack leaves: the bytes written at the front of
      the buffer, the caller's message with its sizes written back, and
      the value returned, which is the body length. */
  datatype Packed = Packed(bytes: seq<Byte>, sent: DlTtiRequest, returned: int)

  /** `fapi_nr_p7_message_pack` with no vendor extension configured.
      `buffersPresent` is false when either pointer is null; `bufLen` is
      the capacity of the output buffer. */
  function PackMessage(L: DlLayouts, r: DlTtiRequest, bufLen: nat, buffersPresent: bool): (o: Outcome<Status<Packed>>)
    requires LayoutsShaped(L) && RequestPackable(L, r) && Fits(W32, bufLen)
    ensures !buffersPresent ==> o == Ok(Failed(-1))
    ensures buffersPresent ==>
      (o.Ok? <==> r.messageId == DlTtiRequestId && HeaderLength + |PackRequest(L, r, [])| <= bufLen)
    ensures o.Ok? && o.value.Done? ==>
      var pk := o.value.value;
      var body := PackRequest(L, r, []);
      && pk.bytes == PackHeader(DlTtiRequestId, |body|, []) + body
      && |pk.bytes| <= bufLen
      && pk.returned == |body| == pk.sent.messageLength
      && pk.sent == SentRequest(L, r, |body|)
  {
    if !buffersPresent then Ok(Failed(-1))
    else if r.messageId != DlTtiRequestId then Fatal
    else
      var body := PackRequest(L, r, []);
      if HeaderLength + |body| > bufLen then Fatal
      else
        var n := |body|;
        assert PackHeader(r.messageId, n, body) == PackHeader(r.messageId, n, []) + body;
        Ok(Done(Packed(PackHeader(r.messageId, n, body), SentRequest(L, r, n), n)))
  }

  // ---------------------------------------------------------------
  // fapi_nr_p7_message_unpack
  // ---------------------------------------------------------------

  /** `fapi_nr_p7_message_unpack` of `buf`, whose length is the buffer
      length the caller passes. `unpackedBufLen` is the size of the
      caller's output buffer and `headerSize` the size of
      fapi_message_header_t, whose declaration is not part of this model;
      `roomForMessage` is the verdict of check_nr_fapi_unpack_length on
      the output buffer, which is not modelled. */
  function UnpackMessage(L: DlLayouts, buf: seq<Byte>, unpackedBufLen: nat, headerSize: nat, roomForMessage: bool)
    : (o: Outcome<Status<DlTtiRequest>>)
    requires LayoutsShaped(L)
    ensures o == Fatal <==> |buf| < HeaderLength || unpackedBufLen < headerSize
    ensures o.Ok? && o.value.Done? ==>
      var hd := PullHeader(buf).value.value;
      && hd.messageLength <= |buf|
      && hd.messageId == DlTtiRequestId && roomForMessage
      && o.value.value.messageId == hd.messageId && o.value.value.messageLength == hd.messageLength
      && RequestPackable(L, o.value.value)
  {
    if |buf| < HeaderLength || unpackedBufLen < headerSize then Fatal
    else
      var hd := PullHeader(buf).value;
      if hd.value.messageLength > |buf| then Ok(Failed(-1))
      else if hd.value.messageId != DlTtiRequestId || !roomForMessage then Ok(Failed(-1))
      else
        match PullRequest(L, hd.value.messageId, hd.value.messageLength, hd.rest)
        case None => Ok(Failed(-1))
        case Some(u) => Ok(Done(u.value))
  }

  /** A length field larger than the buffer is refused. */
  lemma UnpackRefusesLongLength(L: DlLayouts, id: int, len: int, body: seq<Byte>, outLen: nat, headerSize: nat, room: bool)
    requires LayoutsShaped(L) && Fits(W16, id) && Fits(W32, len) && len > HeaderLength + |body| && outLen >= headerSize
    ensures UnpackMessage(L, PackHeader(id, len, body), outLen, headerSize, room) == Ok(Failed(-1))
  {
    PullHeaderPacked(id, len, body);
  }

  /** A message of another type is refused. */
  lemma UnpackRefusesOtherTypes(L: DlLayouts, id: int, len: int, body: seq<Byte>, outLen: nat, headerSize: nat, room: bool)
    requires LayoutsShaped(L) && Fits(W16, id) && Fits(W32, len) && id != DlTtiRequestId && outLen >= headerSize
    ensures UnpackMessage(L, PackHeader(id, len, body), outLen, headerSize, room) == Ok(Failed(-1))
  {
    PullHeaderPacked(id, len, body);
  }

  // ---------------------------------------------------------------
  // The round trip
  // ---------------------------------------------------------------

  lemma {:induction false} RetainedPdusOfSized(L: DlLayouts, ps: seq<DlPdu>)
    requires LayoutsShaped(L) && PdusPackable(L, ps)
    ensures RetainedPdus(L, SizedPdus(L, ps)) == RetainedPdus(L, ps)
    decreases |ps|
  {
    if |ps| > 0 {
      var p, more := ps[0], ps[1..];
      var sized := SizedPdus(L, ps);
      assert sized[0] == SizedPdu(L, p) && sized[1..] == SizedPdus(L, more);
      RetainedPdusOfSized(L, more);
      RetainedOfSized(L, p);
    }
  }

  lemma RetainedOfSized(L: DlLayouts, p: DlPdu)
    requires LayoutsShaped(L) && PduPackable(L, p)
    ensures RetainedPdu(L, SizedPdu(L, p)) == RetainedPdu(L, p)
  {
  }

  /** Writing the sizes back changes nothing the receiver holds. */
  lemma RetainedOfSent(L: DlLayouts, r: DlTtiRequest, len: int)
    requires LayoutsShaped(L) && RequestPackable(L, r)
    ensures RetainedRequest(L, SentRequest(L, r, len)) == RetainedRequest(L, r.(messageLength := len))
  {
    RetainedPdusOfSized(L, r.pdus[..r.nPdus]);
    var u, v := SentRequest(L, r, len), r.(messageLength := len);
    assert RequestGroups(L, u) == RequestGroups(L, v);
  }

  /** A DL_TTI.request whose values fit their fields, packed into a buffer
      large enough, unpacks from the bytes written to the message the
      packer left behind, as the receiver should hold it: every PDU with
      its packed size and the selected body, and the listed UEs. */
  lemma MessageRoundTrip(L: DlLayouts, r: DlTtiRequest, bufLen: nat, outLen: nat, headerSize: nat)
    requires LayoutsShaped(L) && RequestFits(L, W8, r) && r.messageId == DlTtiRequestId
    requires Fits(W32, bufLen) && HeaderLength + |PackRequest(L, r, [])| <= bufLen && outLen >= headerSize
    ensures PackMessage(L, r, bufLen, true).Ok? && PackMessage(L, r, bufLen, true).value.Done?
    ensures var pk := PackMessage(L, r, bufLen, true).value.value;
      UnpackMessage(L, pk.bytes, outLen, headerSize, true) == Ok(Done(RetainedRequest(L, pk.sent)))
  {
    var body := PackRequest(L, r, []);
    var n := |body|;
    var pk := PackMessage(L, r, bufLen, true).value.value;
    assert pk.bytes == PackHeader(DlTtiRequestId, n, body);
    PullHeaderPacked(DlTtiRequestId, n, body);
    var v := r.(messageLength := n);
    assert PackRequest(L, v, []) == body;
    PullRequestPacked(L, v, []);
    RetainedOfSent(L, r, n);
  }
}
