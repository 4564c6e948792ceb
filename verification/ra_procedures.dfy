/** The UE's random-access procedure as a state machine (TS 38.321
    section 5.1): initialisation, preamble selection and transmission,
    the response window, Msg3, and what success and the two kinds of
    failure do to the counters and states. */
module RaProcedures {
  import opened Common
  import opened Arithmetic
  import opened RaValues
  import opened TddFrame

  datatype RaType = FourStep | TwoStep

  /** `nrRA_*`: the phases of the procedure that this part of the MAC
      sets. `RaIdle` is the zero value. */
  datatype RaPhase = RaIdle | GeneratePreamble | WaitRar | WaitContentionResolution | Succeeded

  /** `mac->state`, reduced to the two values the procedure sets. */
  datatype UeMacState = UeOtherState | UePerformingRa | UeConnected

  /** The RRC indications the procedure raises (`nr_mac_rrc_ra_ind`
      with success or failure, `nr_mac_rrc_msg3_ind`). */
  datatype RrcIndication = RaSuccess | RaProblem | Msg3Request

  /** A PDCCH order (DCI format 1_0) that triggered the procedure. */
  datatype PdcchOrder = PdcchOrder(active: bool, preambleIndex: int, ssbIndex: nat, prachMask: int)

  /** `RA_config_t`, the fields this part of the MAC reads and writes. */
  datatype RaContext = RaContext(
    phase: RaPhase,
    active: bool,
    raType: RaType,
    cfra: bool,
    txCounter: int,
    rampingCounter: int,
    rampingStep: int,
    powerOffset2Step: int,
    targetPowerConfig: int,
    targetPower: int,
    transMax: int,
    responseWindow: int,
    msg3Size: int,
    tCrnti: int,
    msg3Buffered: bool,
    preambleIndex: int,
    newSsb: bool,
    raSsb: nat,
    contentionTimer: Option<int>,
    backoffTimer: Option<nat>,
    order: PdcchOrder)

  /** `reset_ra`: the context cleared to zero. */
  const ResetRa := RaContext(RaIdle, false, FourStep, false, 0, 0, 0, 0, 0, 0, 0, 0, 0, 0, false,
                             0, false, 0, None, None, PdcchOrder(false, 0, 0, 0))

  /** The MAC instance: UE state, C-RNTI, whether Msg3 carries a C-RNTI
      MAC CE, and the RA context. */
  datatype MacContext = MacContext(state: UeMacState, crnti: int, msg3CRnti: bool, ra: RaContext)

  // ---------------------------------------------------------------
  // PDCCH order and RA type (init_RA)
  // ---------------------------------------------------------------

  /** The test of init_RA and configure_ra_preamble as written: the
      literal 0xb000000 is hexadecimal, so no 6-bit preamble index
      equals it. */
  predicate OrderSignalsPreambleAsWritten(o: PdcchOrder) {
    o.active && o.preambleIndex != 0xb000000
  }

  /** TS 38.321 section 5.1.1: a PDCCH order selects contention-free
      access unless its ra-PreambleIndex is 0b000000. */
  predicate OrderSignalsPreamble(o: PdcchOrder) {
    o.active && o.preambleIndex != 0
  }

  /** For every 6-bit preamble index the written test only looks at
      whether an order is active. */
  lemma AsWrittenOrderIgnoresIndex(o: PdcchOrder)
    requires 0 <= o.preambleIndex < 64
    ensures OrderSignalsPreambleAsWritten(o) == o.active
    ensures OrderSignalsPreamble(o) == (o.active && o.preambleIndex != 0)
  {
  }

  /** An order with preamble index 0 asks for contention-based access,
      but the written test takes it as contention-free with preamble
      0. */
  lemma AsWrittenOrderZeroIsContentionFree()
    ensures OrderSignalsPreambleAsWritten(PdcchOrder(true, 0, 0, 0))
    ensures !OrderSignalsPreamble(PdcchOrder(true, 0, 0, 0))
  {
  }

  /** msgA-ConfigCommon: the 2-step RACH configuration of the BWP. */
  datatype MsgAConfig = MsgAConfig(
    rsrpThreshold: Option<int>,
    rampingStep: Option<int>,
    targetPower: Option<int>,
    transMaxCode: Option<int>,
    msgBWindowR16: Option<int>,
    msgBWindowV1700: Option<int>)

  datatype RaSelection = RaSelection(raType: RaType, cfra: bool)

  /** RSRP thresholds are the IE value minus 156 dBm; IE 127 means
      infinity. */
  predicate RsrpAboveThreshold(rsrp: int, thresholdIe: int) {
    thresholdIe != 127 && rsrp > thresholdIe - 156
  }

  /** The type choice of init_RA: 4-step contention-free when dedicated
      CFRA resources or a PDCCH order with a preamble are present; then
      2-step contention-free when 2-step CFRA resources are; otherwise
      2-step contention-based when the BWP has a msgA configuration and
      the RSRP passes msgA-RSRP-Threshold, which must then be present;
      otherwise 4-step contention-based. */
  function SelectRaType(dedicatedCfra: bool, order: PdcchOrder, twoStepCfra: bool,
                        msgA: Option<MsgAConfig>, rsrp: int): (r: Outcome<RaSelection>)
    ensures r.Fatal? <==>
      (!dedicatedCfra && !OrderSignalsPreamble(order) && !twoStepCfra
       && msgA.Some? && msgA.value.rsrpThreshold.None?)
    ensures r.Ok? ==> (r.value.cfra <==> dedicatedCfra || OrderSignalsPreamble(order) || twoStepCfra)
    ensures r.Ok? ==>
      (r.value.raType == TwoStep <==>
         !dedicatedCfra && !OrderSignalsPreamble(order)
         && (twoStepCfra || (msgA.Some? && RsrpAboveThreshold(rsrp, msgA.value.rsrpThreshold.value))))
  {
    if dedicatedCfra || OrderSignalsPreamble(order) then Ok(RaSelection(FourStep, true))
    else if twoStepCfra then Ok(RaSelection(TwoStep, true))
    else if msgA.None? then Ok(RaSelection(FourStep, false))
    else if msgA.value.rsrpThreshold.None? then Fatal
    else if RsrpAboveThreshold(rsrp, msgA.value.rsrpThreshold.value) then Ok(RaSelection(TwoStep, false))
    else Ok(RaSelection(FourStep, false))
  }

  // ---------------------------------------------------------------
  // Response window (setup_ra_response_window)
  // ---------------------------------------------------------------

  /** The window fields of RACH-ConfigGeneric and of the 2-step
      configuration, each an ENUMERATED index. */
  datatype WindowField = MsgBWindowR16 | MsgBWindowV1700 | RarWindow | RarWindowV1610 | RarWindowV1700

  /** Window lengths in slots as the enumerators of TS 38.331 name them:
      msgB-ResponseWindow-r16 {sl1 .. sl320}, -v1700 {sl240 .. sl2560},
      ra-ResponseWindow {sl1 .. sl80}, -v1610 {sl60, sl160}, -v1700
      {sl240 .. sl2560}. */
  function WindowTable(f: WindowField): seq<nat> {
    match f
    case MsgBWindowR16 => [1, 2, 4, 8, 10, 20, 40, 80, 160, 320]
    case MsgBWindowV1700 => [240, 640, 960, 1280, 1920, 2560]
    case RarWindow => [1, 2, 4, 8, 10, 20, 40, 80]
    case RarWindowV1610 => [60, 160]
    case RarWindowV1700 => [240, 320, 640, 960, 1280, 1920, 2560]
  }

  /** The tables of `nr_get_RA_window_*` as written: sl320 of
      msgB-ResponseWindow-r16 gives 360 and sl2560 of both -v1700 fields
      gives 2590. */
  function WindowTableAsWritten(f: WindowField): seq<nat> {
    match f
    case MsgBWindowR16 => [1, 2, 4, 8, 10, 20, 40, 80, 160, 360]
    case MsgBWindowV1700 => [240, 640, 960, 1280, 1920, 2590]
    case RarWindow => [1, 2, 4, 8, 10, 20, 40, 80]
    case RarWindowV1610 => [60, 160]
    case RarWindowV1700 => [240, 320, 640, 960, 1280, 1920, 2590]
  }

  /** The written tables differ from the enumerators exactly in those
      three entries, and both have the same length. */
  lemma WindowTablesDiffer(f: WindowField, code: int)
    ensures |WindowTableAsWritten(f)| == |WindowTable(f)|
    ensures 0 <= code < |WindowTable(f)| ==>
      (WindowTableAsWritten(f)[code] != WindowTable(f)[code] <==>
         (f == MsgBWindowR16 && code == 9) || (f != RarWindow && f != RarWindowV1610 && code == |WindowTable(f)| - 1))
  {
  }

  /** Longer enumerators mean longer windows. */
  lemma WindowTableIncreasing(f: WindowField, i: int, j: int)
    requires 0 <= i < j < |WindowTable(f)|
    ensures WindowTable(f)[i] < WindowTable(f)[j]
  {
  }

  /** One lookup; an index outside the enumeration stops the UE. */
  function WindowLookup(table: seq<nat>, code: int): (r: Outcome<nat>)
    ensures r.Ok? <==> 0 <= code < |table|
    ensures r.Ok? ==> r.value == table[code]
  {
    if 0 <= code < |table| then Ok(table[code]) else Fatal
  }

  /** The window fields that configure the procedure. */
  datatype WindowConfig = WindowConfig(
    msgBR16: Option<int>,
    msgBV1700: Option<int>,
    rar: int,
    rarV1610: Option<int>,
    rarV1700: Option<int>)

  /** setup_ra_response_window as written, before the timing advance
      is added. The 2-step window must be configured by exactly one
      field and last at most 40 ms. For 4-step the extension fields are
      looked up but the pointer that should remember them is never set,
      so ra-ResponseWindow always wins. */
  function WindowSlotsAsWritten(twoStep: bool, w: WindowConfig, slotsPerFrame: int): (r: Outcome<nat>)
  {
    if twoStep then
      var v16 := if w.msgBR16.Some? then WindowLookup(WindowTableAsWritten(MsgBWindowR16), w.msgBR16.value) else Ok(0);
      var v := if w.msgBV1700.None? then v16
               else if w.msgBR16.Some? then Fatal
               else WindowLookup(WindowTableAsWritten(MsgBWindowV1700), w.msgBV1700.value);
      if v.Fatal? || v.value == 0 || v.value > 4 * slotsPerFrame then Fatal else v
    else
      var v16 := if w.rarV1610.Some? then WindowLookup(WindowTableAsWritten(RarWindowV1610), w.rarV1610.value) else Ok(0);
      var v17 := if w.rarV1700.Some? then WindowLookup(WindowTableAsWritten(RarWindowV1700), w.rarV1700.value) else Ok(0);
      if v16.Fatal? || v17.Fatal? then Fatal
      else WindowLookup(WindowTableAsWritten(RarWindow), w.rar)
  }

  /** The written 4-step window is the base ra-ResponseWindow whatever
      extension is configured. */
  lemma AsWrittenRarWindowIsBase(w: WindowConfig, slotsPerFrame: int)
    requires WindowSlotsAsWritten(false, w, slotsPerFrame).Ok?
    ensures WindowSlotsAsWritten(false, w, slotsPerFrame).value == WindowTable(RarWindow)[w.rar]
  {
  }

  /** The window TS 38.331 configures, before the timing advance: for
      2-step, exactly one of msgB-ResponseWindow-r16 and -v1700, within
      40 ms; for 4-step, ra-ResponseWindow-v1700 or -v1610 (never both)
      when present, otherwise ra-ResponseWindow. */
  function WindowSlots(twoStep: bool, w: WindowConfig, slotsPerFrame: int): (r: Outcome<nat>)
    ensures twoStep ==>
      (r.Ok? <==>
         ((w.msgBR16.Some? && w.msgBV1700.None? && 0 <= w.msgBR16.value < 10
           && WindowTable(MsgBWindowR16)[w.msgBR16.value] <= 4 * slotsPerFrame)
          || (w.msgBR16.None? && w.msgBV1700.Some? && 0 <= w.msgBV1700.value < 6
              && WindowTable(MsgBWindowV1700)[w.msgBV1700.value] <= 4 * slotsPerFrame)))
    ensures twoStep && r.Ok? ==>
      r.value == (if w.msgBR16.Some? then WindowTable(MsgBWindowR16)[w.msgBR16.value]
                  else WindowTable(MsgBWindowV1700)[w.msgBV1700.value])
    ensures !twoStep ==>
      (r.Ok? <==>
         if w.rarV1700.Some? then w.rarV1610.None? && 0 <= w.rarV1700.value < 7
         else if w.rarV1610.Some? then 0 <= w.rarV1610.value < 2
         else 0 <= w.rar < 8)
    ensures !twoStep && r.Ok? ==>
      r.value == (if w.rarV1700.Some? then WindowTable(RarWindowV1700)[w.rarV1700.value]
                  else if w.rarV1610.Some? then WindowTable(RarWindowV1610)[w.rarV1610.value]
                  else WindowTable(RarWindow)[w.rar])
    ensures r.Ok? ==> r.value >= 1
  {
    if twoStep then
      var v := if w.msgBV1700.None? then
                 (if w.msgBR16.Some? then WindowLookup(WindowTable(MsgBWindowR16), w.msgBR16.value) else Ok(0))
               else if w.msgBR16.Some? then Fatal
               else WindowLookup(WindowTable(MsgBWindowV1700), w.msgBV1700.value);
      if v.Fatal? || v.value == 0 || v.value > 4 * slotsPerFrame then Fatal else v
    else if w.rarV1700.Some? then
      if w.rarV1610.Some? then Fatal else WindowLookup(WindowTable(RarWindowV1700), w.rarV1700.value)
    else if w.rarV1610.Some? then WindowLookup(WindowTable(RarWindowV1610), w.rarV1610.value)
    else WindowLookup(WindowTable(RarWindow), w.rar)
  }

  /** msgB-ResponseWindow-v1700 sl2560 at 960 kHz (640 slots per frame)
      is exactly 40 ms, but the written 2590 fails the 40 ms check. */
  lemma AsWrittenMsgBRejectsSl2560()
    ensures WindowSlotsAsWritten(true, WindowConfig(None, Some(5), 0, None, None), 640).Fatal?
    ensures WindowSlots(true, WindowConfig(None, Some(5), 0, None, None), 640) == Ok(2560)
  {
  }

  /** msgB-ResponseWindow-r16 sl320 at 120 kHz (80 slots per frame) is
      exactly 40 ms, but the written 360 fails the check. */
  lemma AsWrittenMsgBRejectsSl320()
    ensures WindowSlotsAsWritten(true, WindowConfig(Some(9), None, 0, None, None), 80).Fatal?
    ensures WindowSlots(true, WindowConfig(Some(9), None, 0, None, None), 80) == Ok(320)
  {
  }

  /** ra-ResponseWindow-v1610 sl60 with the base field at sl80: the code
      waits 80 slots instead of 60. */
  lemma AsWrittenRarIgnoresV1610()
    ensures WindowSlotsAsWritten(false, WindowConfig(None, None, 7, Some(0), None), 20) == Ok(80)
    ensures WindowSlots(false, WindowConfig(None, None, 7, Some(0), None), 20) == Ok(60)
  {
  }

  /** Without extension fields the two agree. */
  lemma WindowSlotsAgreeOnBaseFields(twoStep: bool, w: WindowConfig, slotsPerFrame: int)
    requires !twoStep ==> w.rarV1610.None? && w.rarV1700.None?
    requires twoStep ==> w.msgBV1700.None? && (w.msgBR16.Some? ==> w.msgBR16.value != 9)
    ensures WindowSlotsAsWritten(twoStep, w, slotsPerFrame) == WindowSlots(twoStep, w, slotsPerFrame)
  {
  }

  // ---------------------------------------------------------------
  // Initialisation (init_RA)
  // ---------------------------------------------------------------

  /** How the softmodem runs: standalone, non-standalone, or neither
      (phy-test and do-ra). */
  datatype SoftmodemMode = Standalone | NonStandalone | OtherMode

  /** The Msg3 size init_RA assumes: a 848-byte NSA transport block
      (844 bytes of SDU and two 2-byte subheaders), the 2-byte C-RNTI
      MAC CE with its 1-byte subheader when neither SA nor NSA; in SA
      it is left as it was. */
  function InitialMsg3Size(mode: SoftmodemMode, previous: int): int {
    match mode
    case NonStandalone => (848 - 3 - 1 - 0) + 2 + 2
    case OtherMode => 2 + 1
    case Standalone => previous
  }

  /** The 4-step RACH-ConfigGeneric fields init_RA copies. */
  datatype RachConfig = RachConfig(rampingStepCode: int, targetPower: int, transMaxCode: int, window: WindowConfig)

  /** A 2-step parameter when the 2-step configuration provides it,
      otherwise the 4-step one. */
  function TwoStepOr(raType: RaType, msgA: Option<MsgAConfig>, field: Option<int>, fallback: int): int {
    if raType == TwoStep && msgA.Some? && field.Some? then field.value else fallback
  }

  /** init_RA. The 2-step configuration is only consulted on the
      contention-based path; a 2-step procedure without it dereferences
      a null pointer, which stops the UE like an assertion. `msgA` is
      the BWP's msgA configuration, `rsrp` the SSB RSRP in dBm,
      `taSlots` the timing-advance share of the window. The response
      window is the one setup_ra_response_window computes as written, so
      a 4-step procedure waits the base ra-ResponseWindow. */
  function InitRa(m: MacContext, mode: SoftmodemMode, rach: RachConfig, dedicatedCfra: bool, twoStepCfra: bool,
                  msgA: Option<MsgAConfig>, rsrp: int, slotsPerFrame: int, taSlots: int)
    : (r: Outcome<(MacContext, seq<RrcIndication>)>)
    ensures r.Ok? ==>
      var (m', ind) := r.value;
      var sel := SelectRaType(dedicatedCfra, m.ra.order, twoStepCfra, msgA, rsrp);
      && sel.Ok? && m'.ra.raType == sel.value.raType && m'.ra.cfra == sel.value.cfra
      && m'.state == UePerformingRa && m'.ra.active && m'.ra.phase == GeneratePreamble
      && !m'.ra.msg3Buffered && !m'.ra.newSsb
      && m'.ra.txCounter == 1 && m'.ra.rampingCounter == 1 && m'.ra.powerOffset2Step == 0
    ensures r.Ok? ==>
      var (m', ind) := r.value;
      var gen := if m'.ra.cfra then None else msgA;
      && PreambleTransMax(TwoStepOr(m'.ra.raType, gen, if gen.Some? then gen.value.transMaxCode else None,
                                    rach.transMaxCode)) == Ok(m'.ra.transMax)
      && m'.ra.rampingStep == 2 * TwoStepOr(m'.ra.raType, gen, if gen.Some? then gen.value.rampingStep else None,
                                            rach.rampingStepCode)
      && m'.ra.targetPowerConfig == TwoStepOr(m'.ra.raType, gen, if gen.Some? then gen.value.targetPower else None,
                                              rach.targetPower)
      && (m'.ra.raType == TwoStep ==> gen.Some?)
      && m'.ra.msg3Size == InitialMsg3Size(mode, m.ra.msg3Size)
      && m'.crnti == m.crnti && m'.msg3CRnti == m.msg3CRnti && m'.ra.order == m.ra.order
      && (ind == [Msg3Request] <==> !m.msg3CRnti && !m'.ra.cfra)
      && (ind == [] <==> !(!m.msg3CRnti && !m'.ra.cfra))
    ensures r.Ok? ==>
      var (m', ind) := r.value;
      var gen := if m'.ra.cfra then None else msgA;
      var w := if m'.ra.raType == TwoStep
               then WindowConfig(gen.value.msgBWindowR16, gen.value.msgBWindowV1700, 0, None, None)
               else rach.window;
      WindowSlotsAsWritten(m'.ra.raType == TwoStep, w, slotsPerFrame).Ok?
      && m'.ra.responseWindow == WindowSlotsAsWritten(m'.ra.raType == TwoStep, w, slotsPerFrame).value + taSlots
    ensures r.Ok? && r.value.0.ra.raType != TwoStep ==>
      0 <= rach.window.rar < 8 && r.value.0.ra.responseWindow == WindowTable(RarWindow)[rach.window.rar] + taSlots
  {
    match SelectRaType(dedicatedCfra, m.ra.order, twoStepCfra, msgA, rsrp)
    case Fatal => Fatal
    case Ok(sel) =>
      var gen := if sel.cfra then None else msgA;
      if sel.raType == TwoStep && gen.None? then Fatal
      else
        var transMax := PreambleTransMax(TwoStepOr(sel.raType, gen, if gen.Some? then gen.value.transMaxCode else None,
                                                   rach.transMaxCode));
        var w := if sel.raType == TwoStep
                 then WindowConfig(gen.value.msgBWindowR16, gen.value.msgBWindowV1700, 0, None, None)
                 else rach.window;
        var window := WindowSlotsAsWritten(sel.raType == TwoStep, w, slotsPerFrame);
        if transMax.Fatal? || window.Fatal? then Fatal
        else
          var ra := m.ra.(
            phase := GeneratePreamble,
            active := true,
            raType := sel.raType,
            cfra := sel.cfra,
            msg3Buffered := false,
            txCounter := 1,
            rampingCounter := 1,
            powerOffset2Step := 0,
            rampingStep := 2 * TwoStepOr(sel.raType, gen, if gen.Some? then gen.value.rampingStep else None,
                                         rach.rampingStepCode),
            targetPowerConfig := TwoStepOr(sel.raType, gen, if gen.Some? then gen.value.targetPower else None,
                                           rach.targetPower),
            transMax := transMax.value,
            newSsb := false,
            msg3Size := InitialMsg3Size(mode, m.ra.msg3Size),
            responseWindow := window.value + taSlots);
          var ind := if !m.msg3CRnti && !sel.cfra then [Msg3Request] else [];
          Ok((m.(state := UePerformingRa, ra := ra), ind))
  }

  // ---------------------------------------------------------------
  // Preamble selection (configure_ra_preamble)
  // ---------------------------------------------------------------

  /** An ssb-ResourceList entry of CFRA. */
  datatype CfraResource = CfraResource(ssb: int, preambleIndex: int)

  /** CFRA-SSB-Resource list with its ra-ssb-OccasionMaskIndex. */
  datatype CfraSsbList = CfraSsbList(resources: seq<CfraResource>, maskIndex: int)

  /** The position of the first resource of `list` from `from` on that
      serves `ssb`. */
  function FindCfraResourceFrom(list: seq<CfraResource>, ssb: int, from: nat): (r: Option<nat>)
    requires from <= |list|
    ensures r.Some? ==> from <= r.value < |list| && list[r.value].ssb == ssb
                        && forall k :: from <= k < r.value ==> list[k].ssb != ssb
    ensures r.None? ==> forall k :: from <= k < |list| ==> list[k].ssb != ssb
    decreases |list| - from
  {
    if from == |list| then None
    else if list[from].ssb == ssb then Some(from)
    else FindCfraResourceFrom(list, ssb, from + 1)
  }

  /** The loops of configure_ra_preamble: the first resource serving
      the SSB, or none. */
  function FindCfraResource(list: seq<CfraResource>, ssb: int): (r: Option<nat>)
    ensures r.Some? ==> r.value < |list| && list[r.value].ssb == ssb
                        && forall k :: 0 <= k < r.value ==> list[k].ssb != ssb
    ensures r.None? <==> forall k :: 0 <= k < |list| ==> list[k].ssb != ssb
  {
    FindCfraResourceFrom(list, ssb, 0)
  }

  /** new_ssb as written: set when the SSB index differs from its
      position among the transmitted SSBs, which says nothing about the
      previous attempt. */
  function NewSsbAsWritten(ssb: nat, ordinal: nat): bool {
    ssb != ordinal
  }

  /** new_ssb as TS 38.321 section 5.1.3 uses it: the SSB (by its
      position among the transmitted ones) changed since the last
      preamble. */
  function NewSsb(previousRaSsb: nat, ordinal: nat): bool {
    ordinal != previousRaSsb
  }

  /** The preamble, SSB and RO mask configure_ra_preamble picks. */
  datatype PreambleChoice = PreambleChoice(preambleIndex: int, ssb: nat, maskIndex: int)

  /** The choice before the SSB is mapped to its position: for 4-step,
      the PDCCH order's preamble and SSB, else a dedicated resource for
      the SSB the UE camps on, else a contention-based preamble
      `cbIndex`; for 2-step, a 2-step CFRA resource when the procedure
      is contention-free, else `cbIndex`. No resource for the SSB stops
      the UE, as does a missing 2-step CFRA list. */
  function ChoosePreamble(ra: RaContext, dedicated: Option<CfraSsbList>, twoStepDedicated: Option<CfraSsbList>,
                          mibSsb: nat, cbIndex: Outcome<int>): (r: Outcome<PreambleChoice>)
    ensures r.Ok? && ra.raType == FourStep && OrderSignalsPreamble(ra.order) ==>
      r.value == PreambleChoice(ra.order.preambleIndex, ra.order.ssbIndex, ra.order.prachMask)
    ensures r.Ok? && !(ra.raType == FourStep && OrderSignalsPreamble(ra.order)) ==> r.value.ssb == mibSsb
    ensures ra.raType == FourStep && !OrderSignalsPreamble(ra.order) && dedicated.None? ==>
      (r.Ok? <==> cbIndex.Ok?) && (r.Ok? ==> r.value == PreambleChoice(cbIndex.value, mibSsb, -1))
    ensures ra.raType == TwoStep && !ra.cfra ==>
      (r.Ok? <==> cbIndex.Ok?) && (r.Ok? ==> r.value == PreambleChoice(cbIndex.value, mibSsb, -1))
    ensures (ra.raType == FourStep && !OrderSignalsPreamble(ra.order) && dedicated.Some?)
            || (ra.raType == TwoStep && ra.cfra && twoStepDedicated.Some?) ==>
      var list := if ra.raType == FourStep then dedicated.value else twoStepDedicated.value;
      (r.Ok? <==> FindCfraResource(list.resources, mibSsb).Some?)
      && (r.Ok? ==> r.value.preambleIndex == list.resources[FindCfraResource(list.resources, mibSsb).value].preambleIndex
                    && r.value.maskIndex == list.maskIndex)
    ensures ra.raType == TwoStep && ra.cfra && twoStepDedicated.None? ==> r.Fatal?
  {
    if ra.raType == FourStep && OrderSignalsPreamble(ra.order) then
      Ok(PreambleChoice(ra.order.preambleIndex, ra.order.ssbIndex, ra.order.prachMask))
    else if (ra.raType == FourStep && dedicated.Some?) || (ra.raType == TwoStep && ra.cfra) then
      if ra.raType == TwoStep && twoStepDedicated.None? then Fatal
      else
        var list := if ra.raType == FourStep then dedicated.value else twoStepDedicated.value;
        match FindCfraResource(list.resources, mibSsb)
        case None => Fatal
        case Some(k) => Ok(PreambleChoice(list.resources[k].preambleIndex, mibSsb, list.maskIndex))
    else
      match cbIndex
      case Fatal => Fatal
      case Ok(index) => Ok(PreambleChoice(index, mibSsb, -1))
  }

  /** configure_ra_preamble: records the choice, maps the SSB to its
      position among the transmitted SSBs (`ordinals`,
      nb_ssb_per_index), and flags an SSB change. An RO mask index other
      than "none" or 0 is not supported and stops the UE. */
  function ConfigureRaPreamble(ra: RaContext, dedicated: Option<CfraSsbList>, twoStepDedicated: Option<CfraSsbList>,
                               mibSsb: nat, cbIndex: Outcome<int>, ordinals: seq<nat>): (r: Outcome<RaContext>)
    requires ra.order.ssbIndex < |ordinals| && mibSsb < |ordinals|
    ensures r.Ok? <==>
      ChoosePreamble(ra, dedicated, twoStepDedicated, mibSsb, cbIndex).Ok?
      && ChoosePreamble(ra, dedicated, twoStepDedicated, mibSsb, cbIndex).value.maskIndex <= 0
    ensures r.Ok? ==>
      var c := ChoosePreamble(ra, dedicated, twoStepDedicated, mibSsb, cbIndex).value;
      && r.value == ra.(preambleIndex := c.preambleIndex, raSsb := ordinals[c.ssb],
                        newSsb := NewSsb(ra.raSsb, ordinals[c.ssb]))
      && (r.value.newSsb <==> r.value.raSsb != ra.raSsb)
  {
    match ChoosePreamble(ra, dedicated, twoStepDedicated, mibSsb, cbIndex)
    case Fatal => Fatal
    case Ok(c) =>
      if c.maskIndex > 0 then Fatal
      else
        var ordinal := ordinals[c.ssb];
        Ok(ra.(preambleIndex := c.preambleIndex, raSsb := ordinal, newSsb := NewSsb(ra.raSsb, ordinal)))
  }

  // ---------------------------------------------------------------
  // Preamble transmission (ra_preamble_msga_transmission)
  // ---------------------------------------------------------------

  /** The ramping counter after a preamble: it grows only on a
      retransmission with an unchanged SSB. */
  function NextRampingCounter(txCounter: int, newSsb: bool, counter: int): (r: int)
    ensures r == counter + 1 <==> txCounter > 1 && !newSsb
    ensures r == counter || r == counter + 1
  {
    if txCounter > 1 && !newSsb then counter + 1 else counter
  }

  /** ra_preamble_msga_transmission: update the ramping counter, then
      compute PREAMBLE_RECEIVED_TARGET_POWER for the chosen occasion's
      format. An unknown format stops the UE. */
  function PreambleTransmission(ra: RaContext, scs: int, format: int): (r: Outcome<RaContext>)
    ensures r.Ok? <==> DeltaPreamble(scs, format).Ok?
    ensures r.Ok? ==>
      && r.value == ra.(rampingCounter := r.value.rampingCounter, targetPower := r.value.targetPower)
      && (r.value.rampingCounter == ra.rampingCounter + 1 <==> ra.txCounter > 1 && !ra.newSsb)
      && r.value.targetPower
         == PreambleTargetPower(ra.targetPowerConfig, DeltaPreamble(scs, format).value, ra.powerOffset2Step,
                                r.value.rampingCounter, ra.rampingStep)
  {
    match DeltaPreamble(scs, format)
    case Fatal => Fatal
    case Ok(delta) =>
      var counter := NextRampingCounter(ra.txCounter, ra.newSsb, ra.rampingCounter);
      Ok(ra.(rampingCounter := counter,
             targetPower := PreambleTargetPower(ra.targetPowerConfig, delta, ra.powerOffset2Step,
                                                counter, ra.rampingStep)))
  }

  /** A retransmission on the same SSB, which SSB 1 alone being
      transmitted makes position 0: the written flag says the SSB
      changed, so the power does not ramp; with the intended flag it
      does. */
  lemma AsWrittenNewSsbBlocksRamping(ra: RaContext)
    requires ra.txCounter == 2 && ra.rampingCounter == 1 && ra.raSsb == 0
    ensures NewSsbAsWritten(1, 0)
    ensures PreambleTransmission(ra.(newSsb := NewSsbAsWritten(1, 0)), 0, 0).value.rampingCounter == 1
    ensures !NewSsb(ra.raSsb, 0)
    ensures PreambleTransmission(ra.(newSsb := NewSsb(ra.raSsb, 0)), 0, 0).value.rampingCounter == 2
  {
  }

  // ---------------------------------------------------------------
  // Msg3, success and failure
  // ---------------------------------------------------------------

  /** nr_Msg3_transmitted: start ra-ContentionResolutionTimer, whose
      ENUMERATED {sf8, sf16, .., sf64} is 8 (code + 1) ms, in slots,
      plus the timing-advance share, and wait for contention
      resolution. */
  function Msg3Transmitted(ra: RaContext, timerCode: int, slotsPerFrame: int, taSlots: int): (r: RaContext)
    ensures r == ra.(phase := WaitContentionResolution, contentionTimer := r.contentionTimer)
    ensures r.contentionTimer.Some?
    ensures 0 <= timerCode && slotsPerFrame >= 10 ==>
      r.contentionTimer.value - taSlots >= 8 * (timerCode + 1)
    ensures r.contentionTimer.value - taSlots == 8 * (timerCode + 1) * (slotsPerFrame / 10)
  {
    var ms := (timerCode + 1) * 8;
    var slots := ms * (slotsPerFrame / 10);
    TimerAtLeastMs(timerCode, slotsPerFrame);
    ra.(phase := WaitContentionResolution, contentionTimer := Some(slots + taSlots))
  }

  /** With at least one slot per millisecond the timer lasts at least
      its nominal length in slots. */
  lemma TimerAtLeastMs(timerCode: int, slotsPerFrame: int)
    ensures 0 <= timerCode && slotsPerFrame >= 10 ==>
      8 * (timerCode + 1) * (slotsPerFrame / 10) >= 8 * (timerCode + 1)
  {
    if 0 <= timerCode && slotsPerFrame >= 10 {
      MulMonotone(1, slotsPerFrame / 10, 8 * (timerCode + 1));
    }
  }

  /** nr_ra_succeeded: for contention-based access the temporary C-RNTI
      becomes the C-RNTI and the contention-resolution timer stops; in
      both cases the procedure ends, the UE is connected, the Msg3
      buffer is released and RRC hears of the success. */
  function RaSucceeded(m: MacContext): (r: (MacContext, seq<RrcIndication>))
    ensures r.1 == [RaSuccess]
    ensures r.0.state == UeConnected && !r.0.msg3CRnti
    ensures r.0.ra.phase == Succeeded && !r.0.ra.active && !r.0.ra.msg3Buffered
    ensures m.ra.cfra ==> r.0.crnti == m.crnti && r.0.ra.tCrnti == m.ra.tCrnti
                          && r.0.ra.contentionTimer == m.ra.contentionTimer
    ensures !m.ra.cfra ==> r.0.crnti == m.ra.tCrnti && r.0.ra.tCrnti == 0 && r.0.ra.contentionTimer.None?
    ensures r.0.ra.txCounter == m.ra.txCounter && r.0.ra.transMax == m.ra.transMax
  {
    var ra := if m.ra.cfra then m.ra else m.ra.(tCrnti := 0, contentionTimer := None);
    var crnti := if m.ra.cfra then m.crnti else m.ra.tCrnti;
    (m.(state := UeConnected, crnti := crnti, msg3CRnti := false,
        ra := ra.(active := false, phase := Succeeded, msg3Buffered := false)),
     [RaSuccess])
  }

  /** nr_ra_backoff_setting: a draw in [0, limit), or 0 without a
      limit. */
  function BackoffSlots(limit: nat, rand: nat): (r: nat)
    ensures limit == 0 ==> r == 0
    ensures limit > 0 ==> r < limit && r == rand % limit
  {
    if limit != 0 then rand % limit else 0
  }

  /** nr_ra_contention_resolution_failed: drop the temporary C-RNTI and
      the Msg3, ask RRC for a new Msg3, count the attempt; at
      preambleTransMax + 1 report a problem, otherwise back off. */
  function ContentionResolutionFailed(m: MacContext, backoff: nat): (r: (MacContext, seq<RrcIndication>))
    ensures r.0.ra.txCounter == m.ra.txCounter + 1
    ensures r.0.ra.tCrnti == 0 && !r.0.ra.msg3Buffered
    ensures r.0.ra.txCounter == m.ra.transMax + 1 ==> r.1 == [Msg3Request, RaProblem] && r.0.ra.backoffTimer == m.ra.backoffTimer
    ensures r.0.ra.txCounter != m.ra.transMax + 1 ==> r.1 == [Msg3Request] && r.0.ra.backoffTimer == Some(backoff)
    ensures r.0 == m.(ra := r.0.ra)
    ensures r.0.ra.phase == m.ra.phase && r.0.ra.transMax == m.ra.transMax
  {
    var ra := m.ra.(tCrnti := 0, msg3Buffered := false, txCounter := m.ra.txCounter + 1);
    if ra.txCounter == ra.transMax + 1 then (m.(ra := ra), [Msg3Request, RaProblem])
    else (m.(ra := ra.(backoffTimer := Some(backoff))), [Msg3Request])
  }

  /** nr_rar_not_successful: count the attempt; at preambleTransMax + 1
      report a problem in SA, or end the procedure (IDLE) otherwise; if
      it does not end, back off. */
  function RarNotSuccessful(m: MacContext, standalone: bool, backoff: nat): (r: (MacContext, seq<RrcIndication>))
    ensures r.0.ra.txCounter == m.ra.txCounter + 1 && r.0.ra.transMax == m.ra.transMax
    ensures r.1 == (if standalone && r.0.ra.txCounter == m.ra.transMax + 1 then [RaProblem] else [])
    ensures !standalone && r.0.ra.txCounter == m.ra.transMax + 1 ==>
      r.0.ra.phase == RaIdle && r.0.ra.backoffTimer == m.ra.backoffTimer
    ensures !(!standalone && r.0.ra.txCounter == m.ra.transMax + 1) ==>
      r.0.ra.phase == m.ra.phase && r.0.ra.backoffTimer == Some(backoff)
    ensures r.0 == m.(ra := r.0.ra)
  {
    var ra := m.ra.(txCounter := m.ra.txCounter + 1);
    if ra.txCounter == ra.transMax + 1 then
      if standalone then (m.(ra := ra.(backoffTimer := Some(backoff))), [RaProblem])
      else (m.(ra := ra.(phase := RaIdle)), [])
    else (m.(ra := ra.(backoffTimer := Some(backoff))), [])
  }

  /** `n` RAR failures in a row, with the same backoff draw. */
  function AfterRarFailures(m: MacContext, n: nat, standalone: bool, backoff: nat): MacContext
    decreases n
  {
    if n == 0 then m else AfterRarFailures(RarNotSuccessful(m, standalone, backoff).0, n - 1, standalone, backoff)
  }

  /** Each failure counts once, and preambleTransMax never changes. */
  lemma {:induction false} AfterRarFailuresCounts(m: MacContext, n: nat, standalone: bool, backoff: nat)
    ensures AfterRarFailures(m, n, standalone, backoff).ra.txCounter == m.ra.txCounter + n
    ensures AfterRarFailures(m, n, standalone, backoff).ra.transMax == m.ra.transMax
    decreases n
  {
    if n > 0 {
      AfterRarFailuresCounts(RarNotSuccessful(m, standalone, backoff).0, n - 1, standalone, backoff);
    }
  }

  /** From a fresh procedure (counter 1), the RAR failure after `n`
      earlier ones reports a problem in SA, or ends the procedure
      otherwise, exactly when it is failure number preambleTransMax;
      every earlier one backs off. */
  lemma GivesUpAtTransMax(m: MacContext, n: nat, standalone: bool, backoff: nat)
    requires m.ra.txCounter == 1
    ensures var r := RarNotSuccessful(AfterRarFailures(m, n, standalone, backoff), standalone, backoff);
      && (RaProblem in r.1 <==> standalone && n + 1 == m.ra.transMax)
      && (r.0.ra.backoffTimer == Some(backoff) <== n + 1 != m.ra.transMax)
      && (!standalone && n + 1 == m.ra.transMax ==> r.0.ra.phase == RaIdle)
  {
    AfterRarFailuresCounts(m, n, standalone, backoff);
  }

  /** trigger_MAC_UE_RA: restart the procedure with a cleared context,
      a Msg3 carrying the C-RNTI, and the PDCCH order if there is one. */
  function TriggerRa(m: MacContext, order: Option<PdcchOrder>): (r: MacContext)
    ensures r.state == UePerformingRa && r.msg3CRnti && r.crnti == m.crnti
    ensures r.ra == ResetRa.(order := r.ra.order)
    ensures order.Some? ==> r.ra.order == order.value.(active := true)
    ensures order.None? ==> r.ra.order == ResetRa.order
  {
    var ra := if order.Some? then ResetRa.(order := order.value.(active := true)) else ResetRa;
    m.(state := UePerformingRa, ra := ra, msg3CRnti := true)
  }

  // ---------------------------------------------------------------
  // PRACH in mixed slots (check_mixed_slot_prach)
  // ---------------------------------------------------------------

  /** Symbol `s` is one of the trailing UL symbols of a slot. */
  predicate UlSymbol(b: SlotBitmap, s: int) {
    SymbolsPerSlot - b.numUlSymbols <= s < SymbolsPerSlot
  }

  /** check_mixed_slot_prach: outside mixed slots every occasion is
      kept; in a mixed slot the symbols from `start` to `end` must all
      be UL symbols. */
  function MixedSlotAcceptsPrach(fs: FrameStructure, slot: nat, start: int, end: int): (r: bool)
    requires PeriodShaped(fs)
    ensures !IsMixedSlot(fs, slot) ==> r
    ensures r && IsMixedSlot(fs, slot) ==>
      Entry(fs, slot).numUlSymbols != 0 && forall s :: start <= s <= end ==> UlSymbol(Entry(fs, slot), s)
    ensures (IsMixedSlot(fs, slot) && start <= end && Entry(fs, slot).numUlSymbols != 0
             && UlSymbol(Entry(fs, slot), start) && UlSymbol(Entry(fs, slot), end)) ==> r
  {
    if IsMixedSlot(fs, slot) then
      var b := Entry(fs, slot);
      if b.numUlSymbols == 0 then false
      else !(start < SymbolsPerSlot - b.numUlSymbols || end > SymbolsPerSlot - 1)
    else true
  }
}
