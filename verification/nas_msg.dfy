/** The UE's 5G NAS message helpers: the message type of a received PDU,
    the security check of a downlink PDU with the DL NAS COUNT
    synchronisation of TS 24.501 section 4.4.3.1, the key-derivation
    inputs of TS 33.501 Annex A, the registration type, and the serving
    network name. The KDF (HMAC-SHA-256), the integrity and ciphering
    algorithms are not part of this model: their outputs are parameters. */
module NasMessages {
  import opened Common
  import opened FapiWire
  import Arithmetic

  const Two32 := 0x1_0000_0000

  // ---------------------------------------------------------------
  // Message type of a received PDU (get_msg_type)
  // ---------------------------------------------------------------

  /** Message type of a DL NAS TRANSPORT (TS 24.501 Table 9.7.1). */
  const DlNasTransport := 0x68

  /** The message type the UE dispatches on; 0 for a missing or short
    * buffer. A security-protected PDU carries a 7-byte security header in
    * front of the plain header, and a DL NAS TRANSPORT carries its 5GSM
    * message after a payload container type and a 2-byte length. */
  function MsgType(buf: Option<seq<Byte>>, length: nat): (t: Byte)
    requires buf.Some? ==> length <= |buf.value|
    ensures buf.None? || length < 2 ==> t == 0
    ensures buf.Some? && length >= 2 && buf.value[1] == 0 ==> t == (if length < 3 then 0 else buf.value[2])
    ensures buf.Some? && length >= 2 && buf.value[1] != 0 && length < 10 ==> t == 0
    ensures buf.Some? && length >= 10 && buf.value[1] != 0 ==>
      t == (if buf.value[9] != DlNasTransport then buf.value[9] else if length < 17 then 0 else buf.value[16])
  {
    if buf.None? || length < 2 then 0
    else
      var b := buf.value;
      if b[1] == 0 then (if length < 3 then 0 else b[2])
      else if length < 10 then 0
      else if b[9] == DlNasTransport then (if length < 17 then 0 else b[16])
      else b[9]
  }

  /** Plain 5GMM header: discriminator, security header type 0, type. */
  function PlainHeader(discriminator: Byte, msgType: Byte): (h: seq<Byte>)
    ensures |h| == 3
  {
    [discriminator, 0, msgType]
  }

  /** Security-protected header: discriminator, non-zero security header
    * type, 4-byte MAC and sequence number. */
  function ProtectedHeader(discriminator: Byte, securityType: Byte, mac: seq<Byte>, sqn: Byte): (h: seq<Byte>)
    requires |mac| == 4
    ensures |h| == 7
  {
    [discriminator, securityType] + mac + [sqn]
  }

  /** 5GSM header: discriminator, PDU session id, procedure transaction
    * identity, message type. */
  function SmHeader(pduSessionId: Byte, pti: Byte, msgType: Byte): (h: seq<Byte>)
    ensures |h| == 4
  {
    [0x2E, pduSessionId, pti, msgType]
  }

  /** A plain message yields the type its header carries. */
  lemma PlainMsgType(discriminator: Byte, msgType: Byte, body: seq<Byte>)
    ensures var b := PlainHeader(discriminator, msgType) + body;
      MsgType(Some(b), |b|) == msgType
  {
  }

  /** A protected message yields the type of the plain header inside. */
  lemma ProtectedMsgType(d: Byte, s: Byte, mac: seq<Byte>, sqn: Byte, d2: Byte, msgType: Byte, body: seq<Byte>)
    requires |mac| == 4 && s != 0 && msgType != DlNasTransport
    ensures var b := ProtectedHeader(d, s, mac, sqn) + PlainHeader(d2, msgType) + body;
      MsgType(Some(b), |b|) == msgType
  {
    var b := ProtectedHeader(d, s, mac, sqn) + PlainHeader(d2, msgType) + body;
    assert b[1] == s && b[9] == msgType;
  }

  /** A protected DL NAS TRANSPORT yields the type of the 5GSM message in
    * its payload container. */
  lemma TransportedMsgType(d: Byte, s: Byte, mac: seq<Byte>, sqn: Byte, d2: Byte,
                           containerType: Byte, containerLength: seq<Byte>,
                           pduSessionId: Byte, pti: Byte, msgType: Byte, body: seq<Byte>)
    requires |mac| == 4 && s != 0 && |containerLength| == 2
    ensures var b := ProtectedHeader(d, s, mac, sqn) + PlainHeader(d2, DlNasTransport) + [containerType]
                     + containerLength + SmHeader(pduSessionId, pti, msgType) + body;
      MsgType(Some(b), |b|) == msgType
  {
    var b := ProtectedHeader(d, s, mac, sqn) + PlainHeader(d2, DlNasTransport) + [containerType]
             + containerLength + SmHeader(pduSessionId, pti, msgType) + body;
    assert b[1] == s && b[9] == DlNasTransport && b[16] == msgType;
  }

  // ---------------------------------------------------------------
  // Downlink security check (nas_security_rx_process)
  // ---------------------------------------------------------------

  datatype SecurityState =
    | NoSecurityContext
    | NewSecurityContext
    | Unprotected
    | IntegrityFailed
    | IntegrityPassed
    | BadInput

  /** Security header types (TS 24.501 section 9.3.1). */
  const PlainMsg := 0
  const IntegrityProtected := 1
  const IntegrityProtectedWithNewContext := 3
  const IntegrityProtectedAndCipheredWithNewContext := 4

  /** The DL NAS COUNT after synchronising its low byte with the received
    * sequence number: it moves to the next count ending in `sqn`, adding
    * 256 first when `sqn` is below the current low byte (uint32). */
  function SyncCount(countDl: nat, sqn: Byte): (r: nat)
    requires countDl < Two32
    ensures r < Two32
    ensures r % 256 == sqn
    ensures countDl + 256 <= Two32 ==> countDl <= r < countDl + 256
  {
    var target := countDl % 256;
    if sqn == target then countDl
    else
      var c := if sqn < target then (countDl + 256) % Two32 else countDl;
      (c / 256) * 256 + sqn
  }

  /** The synchronised count is the least count not below the current one
    * whose low byte is the sequence number. */
  lemma SyncCountIsLeast(countDl: nat, sqn: Byte, c: nat)
    requires countDl + 256 <= Two32
    requires c % 256 == sqn && countDl <= c
    ensures SyncCount(countDl, sqn) <= c
  {
    var r := SyncCount(countDl, sqn);
    if c < r {
      Arithmetic.ModDistinct(c, r, 256);
    }
  }

  /** Result of the check: the state and the DL NAS COUNT afterwards. */
  datatype RxResult = RxResult(state: SecurityState, countDl: nat)

  /** nas_security_rx_process. `integrityOk` is whether the MAC the
    * integrity algorithm computes over the PDU with the synchronised count
    * equals the received one. A count beyond 24 bits exits the program. */
  function SecurityRx(hasContext: bool, pdu: seq<Byte>, countDl: nat, integrityOk: bool): (r: Outcome<RxResult>)
    requires countDl < Two32
    ensures !hasContext ==> r == Ok(RxResult(NoSecurityContext, countDl))
    ensures hasContext && |pdu| < 8 ==> r == Ok(RxResult(BadInput, countDl))
    ensures hasContext && |pdu| >= 8 && pdu[1] == PlainMsg ==> r == Ok(RxResult(Unprotected, countDl))
    ensures hasContext && |pdu| >= 8 && pdu[1] in {IntegrityProtected, IntegrityProtectedWithNewContext, IntegrityProtectedAndCipheredWithNewContext}
      ==> r == Ok(RxResult(BadInput, countDl))
    ensures r.Fatal? ==> hasContext && |pdu| >= 8 && SyncCount(countDl, pdu[6]) > 0xFF_FFFF
    ensures r.Ok? && r.value.state == IntegrityFailed ==> r.value.countDl == SyncCount(countDl, pdu[6]) && !integrityOk
    ensures r.Ok? && r.value.state == IntegrityPassed ==> r.value.countDl == SyncCount(countDl, pdu[6]) + 1 && integrityOk
    ensures r.Ok? ==> r.value.countDl < Two32
  {
    if !hasContext then Ok(RxResult(NoSecurityContext, countDl))
    else if |pdu| < 8 then Ok(RxResult(BadInput, countDl))
    else if pdu[1] == PlainMsg then Ok(RxResult(Unprotected, countDl))
    else if pdu[1] in {IntegrityProtected, IntegrityProtectedWithNewContext, IntegrityProtectedAndCipheredWithNewContext} then
      Ok(RxResult(BadInput, countDl))
    else
      var c := SyncCount(countDl, pdu[6]);
      if c > 0xFF_FFFF then Fatal
      else if !integrityOk then Ok(RxResult(IntegrityFailed, c))
      else Ok(RxResult(IntegrityPassed, c + 1))
  }

  /** While the count stays within 24 bits (as the exit guarantees), the
    * check never lowers it, and a failed check leaves its low byte equal
    * to the received sequence number. */
  lemma SecurityRxKeepsCountOrder(hasContext: bool, pdu: seq<Byte>, countDl: nat, integrityOk: bool)
    requires countDl <= 0x100_0000
    ensures var r := SecurityRx(hasContext, pdu, countDl, integrityOk);
      r.Ok? ==> countDl <= r.value.countDl
    ensures var r := SecurityRx(hasContext, pdu, countDl, integrityOk);
      r.Ok? && r.value.state == IntegrityFailed ==> r.value.countDl % 256 == pdu[6]
    ensures var r := SecurityRx(hasContext, pdu, countDl, integrityOk);
      r.Ok? && r.value.state == IntegrityPassed ==> (r.value.countDl - 1) % 256 == pdu[6]
  {
  }

  // ---------------------------------------------------------------
  // Key-derivation inputs (TS 33.501 Annex A)
  // ---------------------------------------------------------------

  /** The input string S of KNAS (TS 33.501 Annex A.8): FC 0x69, the
    * algorithm type distinguisher, its length 00 01, the algorithm
    * identity, its length 00 01. */
  function KnasInput(algType: nat, algId: Byte): (s: seq<Byte>)
    ensures |s| == 7 && s[0] == 0x69 && s[1] == algType % 256 && s[4] == algId
    ensures s[2..4] == BigEndian(2, 1) && s[5..7] == BigEndian(2, 1)
  {
    [0x69, algType % 256, 0x00, 0x01, algId, 0x00, 0x01]
  }

  /** KNAS is the 128 least significant bits of the 256-bit KDF output. */
  function KnasKey(kdfOut: seq<Byte>): (k: seq<Byte>)
    requires |kdfOut| == 32
    ensures |k| == 16 && kdfOut == kdfOut[..16] + k
  {
    kdfOut[16..]
  }

  /** The input string S of KgNB (TS 33.501 Annex A.9): FC 0x6E, the
    * uplink NAS COUNT most significant byte first, its length 00 04, the
    * access type distinguisher 01 (3GPP access), its length 00 01. */
  function KgnbInput(count: nat): (s: seq<Byte>)
    requires count < Two32
    ensures |s| == 10 && s[0] == 0x6E
  {
    [0x6E, count / 0x100_0000, (count / 0x1_0000) % 256, (count / 0x100) % 256, count % 256, 0, 4, 0x01, 0, 1]
  }

  /** The count bytes of the KgNB input are the 4-byte big-endian encoding
    * of the count, so the input gives the count back. */
  lemma KgnbInputCarriesCount(count: nat)
    requires count < Two32
    ensures KgnbInput(count)[1..5] == BigEndian(4, count)
    ensures ValueOf(KgnbInput(count)[1..5]) == count
    ensures KgnbInput(count)[5..7] == BigEndian(2, 4) && KgnbInput(count)[8..10] == BigEndian(2, 1)
  {
    var s := KgnbInput(count);
    BigEndianFour(count);
    assert s[1..5] == BigEndian(4, count);
    ValueOfBigEndian(4, count);
    assert Pow256(4) == Two32 by {
      LimitIsPow256(W32);
    }
    Arithmetic.ModSmall(count, Two32);
    assert BigEndian(2, 4) == [0, 4] && BigEndian(2, 1) == [0, 1];
  }

  lemma BigEndianFour(u: nat)
    requires u < Two32
    ensures BigEndian(4, u) == [u / 0x100_0000, (u / 0x1_0000) % 256, (u / 0x100) % 256, u % 256]
  {
    var a, b, c := u / 0x100, u / 0x1_0000, u / 0x100_0000;
    assert a / 0x100 == b && b / 0x100 == c;
    assert c < 0x100;
    assert BigEndian(1, c) == [c];
    assert BigEndian(2, b) == [c, b % 256];
    assert BigEndian(3, a) == [c, b % 256, a % 256];
  }

  // ---------------------------------------------------------------
  // Registration type (set_fgs_registration_type)
  // ---------------------------------------------------------------

  /** 5GMM main states (TS 24.501 section 5.1.3.2.1). */
  datatype FiveGmmState =
    | FgsDeregistered
    | FgsRegisteredInitiated
    | FgsRegistered
    | FgsDeregisteredInitiated
    | FgsServiceRequestInitiated

  datatype FiveGmmMode = FgsIdle | FgsConnected

  /** 5GS registration type values (TS 24.501 section 9.11.3.7). */
  datatype RegistrationType =
    | InitialRegistration
    | MobilityRegistrationUpdating
    | PeriodicRegistrationUpdating
    | EmergencyRegistration
    | RegTypeReserved

  /** The registration type the UE requests. Periodic updating (timer
    * T3512 running in idle) and the RRC-inactive case are not handled and
    * give the reserved value. */
  function SetRegistrationType(state: FiveGmmState, mode: FiveGmmMode, t3512: bool, rrcInactive: bool): (r: RegistrationType)
    ensures r == RegTypeReserved <==>
      ((state == FgsRegistered && mode == FgsIdle && t3512) || (state != FgsRegistered && mode == FgsConnected && rrcInactive))
    ensures r == MobilityRegistrationUpdating <==> (state == FgsRegistered && !(mode == FgsIdle && t3512))
    ensures r == InitialRegistration <==> (state != FgsRegistered && !(mode == FgsConnected && rrcInactive))
    ensures r != PeriodicRegistrationUpdating && r != EmergencyRegistration
  {
    if state == FgsRegistered && mode == FgsIdle && t3512 then RegTypeReserved
    else if state == FgsRegistered then MobilityRegistrationUpdating
    else if mode == FgsConnected && rrcInactive then RegTypeReserved
    else InitialRegistration
  }

  // ---------------------------------------------------------------
  // Serving network name (servingNetworkName)
  // ---------------------------------------------------------------

  /** The 3-digit MNC of the IMSI: a 2-digit MNC gets a leading zero
    * (TS 24.501 section 9.12.1). */
  function Mnc(imsi: string, mncSize: nat): (mnc: string)
    requires |imsi| >= (if mncSize == 2 then 5 else 6)
    ensures |mnc| == 3
    ensures mncSize == 2 ==> mnc == ['0'] + imsi[3..5]
    ensures mncSize != 2 ==> mnc == imsi[3..6]
  {
    if mncSize == 2 then ['0', imsi[3], imsi[4]] else [imsi[3], imsi[4], imsi[5]]
  }

  const SnnPrefix := "5G:mnc"
  const SnnMccTag := ".mcc"
  const SnnSuffix := ".3gppnetwork.org"

  /** The SNN-network-identifier "5G:mncXXX.mccYYY.3gppnetwork.org". */
  function ServingNetworkName(imsi: string, mncSize: nat): (name: string)
    requires |imsi| >= (if mncSize == 2 then 5 else 6)
    ensures |name| == 32
  {
    SnnPrefix + Mnc(imsi, mncSize) + SnnMccTag + imsi[..3] + SnnSuffix
  }

  /** Reads MNC and MCC back from a serving network name. */
  function ParseServingNetworkName(name: string): (r: Option<(string, string)>)
    ensures r.Some? ==> |r.value.0| == 3 && |r.value.1| == 3
  {
    if |name| == 32 && name[..6] == SnnPrefix && name[9..13] == SnnMccTag && name[16..] == SnnSuffix
    then Some((name[6..9], name[13..16]))
    else None
  }

  /** The name carries the zero-padded MNC and the MCC of the IMSI. */
  lemma ServingNetworkNameRoundTrip(imsi: string, mncSize: nat)
    requires |imsi| >= (if mncSize == 2 then 5 else 6)
    ensures ParseServingNetworkName(ServingNetworkName(imsi, mncSize)) == Some((Mnc(imsi, mncSize), imsi[..3]))
  {
    var mnc := Mnc(imsi, mncSize);
    var name := ServingNetworkName(imsi, mncSize);
    assert name[..6] == SnnPrefix;
    assert name[6..9] == mnc;
    assert name[9..13] == SnnMccTag;
    assert name[13..16] == imsi[..3];
    assert name[16..] == SnnSuffix;
  }
  // ---------------------------------------------------------------
  // S-NSSAI of a PDU session request, allowed-NSSAI lookup
  // ---------------------------------------------------------------

  /** The SD value that stands for "no SD" (TS 23.003 section 28.4.2). */
  const NoSd := 0xFF_FFFF

  /** The S-NSSAI contents of the UL NAS TRANSPORT: the SST, then the SD
    * as three octets, most significant first, unless it is NoSd. */
  function EncodeSnssai(sst: Byte, sd: nat): (v: seq<Byte>)
    requires sd <= NoSd
    ensures |v| == (if sd == NoSd then 1 else 4) && v[0] == sst
  {
    if sd == NoSd then [sst] else [sst] + BigEndian(3, sd)
  }

  /** Reads SST and SD back from S-NSSAI contents of length 1 or 4. */
  function DecodeSnssai(v: seq<Byte>): (r: Option<(Byte, nat)>)
    ensures r.Some? <==> |v| == 1 || |v| == 4
    ensures r.Some? ==> r.value.0 == v[0] && r.value.1 <= NoSd
  {
    if |v| == 1 then Some((v[0], NoSd))
    else if |v| == 4 then
      assert |v[1..]| == 3 && Pow256(1) == 0x100 && Pow256(2) == 0x1_0000 && Pow256(3) == 0x100_0000;
      Some((v[0], ValueOf(v[1..])))
    else None
  }

  /** An S-NSSAI decodes to the SST and SD it was built from. */
  lemma SnssaiRoundTrip(sst: Byte, sd: nat)
    requires sd <= NoSd
    ensures DecodeSnssai(EncodeSnssai(sst, sd)) == Some((sst, sd))
  {
    if sd != NoSd {
      var v := EncodeSnssai(sst, sd);
      assert v[1..] == BigEndian(3, sd);
      ValueOfBigEndian(3, sd);
      assert Pow256(1) == 0x100 && Pow256(2) == 0x1_0000 && Pow256(3) == 0x100_0000;
      Arithmetic.ModSmall(sd, 0x100_0000);
    }
  }

  datatype Snssai = Snssai(sst: int, sd: int)

  /** get_user_nssai_idx: the first of the eight allowed S-NSSAIs equal
    * to the UE's, or -1 when none is. */
  method UserNssaiIdx(allowed: seq<Snssai>, sst: int, sd: int) returns (r: int)
    requires |allowed| == 8
    ensures r == -1 <==> forall i :: 0 <= i < 8 ==> allowed[i] != Snssai(sst, sd)
    ensures r != -1 ==> 0 <= r < 8 && allowed[r] == Snssai(sst, sd)
    ensures forall i :: 0 <= i < r ==> allowed[i] != Snssai(sst, sd)
  {
    var i := 0;
    while i < 8
      invariant 0 <= i <= 8
      invariant forall k :: 0 <= k < i ==> allowed[k] != Snssai(sst, sd)
    {
      if allowed[i].sst == sst && allowed[i].sd == sd {
        return i;
      }
      i := i + 1;
    }
    return -1;
  }
}
