/** Sequential pieces of the NR UE MAC scheduler: PUSCH and SRS
    transmission timing, BSR index lookup, CSI-RS band clipping, the
    per-slot UL configuration list, PRACH frame selection and logical
    channel bookkeeping. */
module UeScheduler {
  import opened Common
  import opened Arithmetic
  import opened TddFrame

  /** System frame numbers wrap at 1024 (TS 38.211 section 4.3.1). */
  const MaxFrameNumber := 1024

  // ---------------------------------------------------------------
  // PUSCH timing (TS 38.214 section 6.1.2.1, TS 38.213 section 8.3)
  // ---------------------------------------------------------------

  /** The extra slots Msg3 waits after the RAR grant, per numerology
      (TS 38.214 Table 6.1.2.1.1-5). Numerologies above 3 stop the UE. */
  function Msg3Delta(mu: int): (r: Outcome<nat>)
    ensures r.Ok? <==> 0 <= mu <= 3
    ensures r.Ok? ==> 2 <= r.value <= 6
  {
    match mu
    case 0 => Ok(2)
    case 1 => Ok(3)
    case 2 => Ok(4)
    case 3 => Ok(6)
    case _ => Fatal
  }

  /** The delay grows with the numerology: shorter slots, more of them. */
  lemma Msg3DeltaIncreasing(mu: int, nu: int)
    requires 0 <= mu < nu <= 3
    ensures Msg3Delta(mu).value < Msg3Delta(nu).value
  {
  }

  datatype TxTime = TxTime(frame: int, slot: int)

  /** The slot `offset` slots after (frame, slot), with C's truncating
      division and remainder. */
  function Advance(frame: int, slot: int, offset: int, slotsPerFrame: nat): TxTime
    requires slotsPerFrame > 0
  {
    TxTime(TruncMod(frame + TruncDiv(slot + offset, slotsPerFrame), MaxFrameNumber),
           TruncMod(slot + offset, slotsPerFrame))
  }

  /** Position of a slot counted from frame 0 of the SFN cycle. */
  function AbsoluteSlot(t: TxTime, slotsPerFrame: nat): int {
    t.frame * slotsPerFrame + t.slot
  }

  /** Moving forward by a non-negative offset lands on a valid slot, and
      its absolute position is the old one plus the offset, modulo the
      SFN cycle. */
  lemma AdvanceIsAbsoluteStep(frame: nat, slot: nat, offset: int, slotsPerFrame: nat)
    requires slotsPerFrame > 0 && slot + offset >= 0
    ensures 0 <= Advance(frame, slot, offset, slotsPerFrame).slot < slotsPerFrame
    ensures 0 <= Advance(frame, slot, offset, slotsPerFrame).frame < MaxFrameNumber
    ensures AbsoluteSlot(Advance(frame, slot, offset, slotsPerFrame), slotsPerFrame)
         == (frame * slotsPerFrame + slot + offset) % (slotsPerFrame * MaxFrameNumber)
  {
    var s := slot + offset;
    var u := frame * slotsPerFrame + s;
    DivModUnique(u, slotsPerFrame, frame + s / slotsPerFrame, s % slotsPerFrame);
    ModOfQuotient(u, slotsPerFrame, MaxFrameNumber);
  }

  /** `nr_ue_pusch_scheduler`: the frame and slot of the PUSCH that a
      grant received in (frame, slot) schedules. `rxToTx` is the UE's
      minimum receive-to-transmit delay in slots. Fatal on an unknown
      numerology for Msg3 or an offset not beyond `rxToTx`; -1 for a
      negative k2 outside Msg3. */
  function PuschSchedule(isMsg3: bool, mu: int, frame: nat, slot: nat, k2: int,
                         slotsPerFrame: nat, rxToTx: int): (r: Outcome<Status<TxTime>>)
    requires slotsPerFrame > 0
    ensures isMsg3 ==> (r.Fatal? <==> Msg3Delta(mu).Fatal? || k2 + Msg3Delta(mu).value <= rxToTx)
    ensures !isMsg3 ==> (r.Fatal? <==> k2 <= rxToTx)
    ensures r.Ok? && r.value.Failed? <==> !isMsg3 && rxToTx < k2 < 0
    ensures r.Ok? && r.value.Failed? ==> r.value.code == -1
    ensures r.Ok? && r.value.Done? ==>
      r.value.value == Advance(frame, slot, k2 + (if isMsg3 then Msg3Delta(mu).value else 0), slotsPerFrame)
  {
    if isMsg3 then
      match Msg3Delta(mu)
      case Fatal => Fatal
      case Ok(delta) =>
        if k2 + delta <= rxToTx then Fatal
        else Ok(Done(Advance(frame, slot, k2 + delta, slotsPerFrame)))
    else if k2 <= rxToTx then Fatal
    else if k2 < 0 then Ok(Failed(-1))
    else Ok(Done(Advance(frame, slot, k2, slotsPerFrame)))
  }

  /** A scheduled PUSCH lies k2 (+ delta) slots after the grant on the
      SFN cycle, in range, whenever the delay bound is non-negative. */
  lemma PuschScheduleInRange(isMsg3: bool, mu: int, frame: nat, slot: nat, k2: int,
                             slotsPerFrame: nat, rxToTx: int)
    requires slotsPerFrame > 0 && rxToTx >= 0
    requires PuschSchedule(isMsg3, mu, frame, slot, k2, slotsPerFrame, rxToTx).Ok?
    ensures PuschSchedule(isMsg3, mu, frame, slot, k2, slotsPerFrame, rxToTx).value.Done?
    ensures var t := PuschSchedule(isMsg3, mu, frame, slot, k2, slotsPerFrame, rxToTx).value.value;
      var offset := k2 + (if isMsg3 then Msg3Delta(mu).value else 0);
      0 <= t.slot < slotsPerFrame && 0 <= t.frame < MaxFrameNumber
      && AbsoluteSlot(t, slotsPerFrame) == (frame * slotsPerFrame + slot + offset) % (slotsPerFrame * MaxFrameNumber)
  {
    var offset := k2 + (if isMsg3 then Msg3Delta(mu).value else 0);
    AdvanceIsAbsoluteStep(frame, slot, offset, slotsPerFrame);
  }

  // ---------------------------------------------------------------
  // Aperiodic SRS timing (nr_ue_aperiodic_srs_scheduling)
  // ---------------------------------------------------------------

  /** The frame of an aperiodic SRS as the code computes it: the modulo
      binds to the slot sum and the division to the offset alone. */
  function SrsFrameAsWritten(frame: nat, slot: nat, slotOffset: nat, slotsPerFrame: nat): nat
    requires slotsPerFrame > 0
  {
    frame + (slot + slotOffset / slotsPerFrame) % MaxFrameNumber
  }

  /** The frame `slotOffset` slots after (frame, slot), as the PUSCH
      scheduler computes it. */
  function SrsFrame(frame: nat, slot: nat, slotOffset: nat, slotsPerFrame: nat): (f: nat)
    requires slotsPerFrame > 0
    ensures f < MaxFrameNumber
  {
    (frame + (slot + slotOffset) / slotsPerFrame) % MaxFrameNumber
  }

  /** The corrected frame and the SRS slot are where the PUSCH advance
      rule puts a transmission `slotOffset` slots later. */
  lemma SrsTimeIsAdvance(frame: nat, slot: nat, slotOffset: nat, slotsPerFrame: nat)
    requires slotsPerFrame > 0
    ensures Advance(frame, slot, slotOffset, slotsPerFrame)
         == TxTime(SrsFrame(frame, slot, slotOffset, slotsPerFrame), SrsSlot(slot, slotOffset, slotsPerFrame))
    ensures AbsoluteSlot(TxTime(SrsFrame(frame, slot, slotOffset, slotsPerFrame), SrsSlot(slot, slotOffset, slotsPerFrame)), slotsPerFrame)
         == (frame * slotsPerFrame + slot + slotOffset) % (slotsPerFrame * MaxFrameNumber)
  {
    var s := slot + slotOffset;
    assert TruncDiv(s, slotsPerFrame) == s / slotsPerFrame;
    assert TruncMod(s, slotsPerFrame) == s % slotsPerFrame;
    AdvanceIsAbsoluteStep(frame, slot, slotOffset, slotsPerFrame);
  }

  /** A trigger in slot 5 of frame 0 with a 3-slot offset and 20 slots per
      frame lands in frame 0, but the code puts it in frame 5. */
  lemma AsWrittenSrsFrameSkipsAhead()
    ensures SrsFrame(0, 5, 3, 20) == 0
    ensures SrsFrameAsWritten(0, 5, 3, 20) == 5
  {
  }

  /** Near the end of the SFN cycle the code's frame leaves the range. */
  lemma AsWrittenSrsFrameOutOfRange()
    ensures SrsFrameAsWritten(1023, 1, 3, 20) == 1024
    ensures SrsFrame(1023, 1, 3, 20) == 1023
  {
  }

  /** The slot and frame of an aperiodic SRS triggered in (frame, slot),
      as nr_ue_aperiodic_srs_scheduling computes them: fatal when the
      offset is not beyond the receive-to-transmit delay, nothing when
      the target slot is not an UL slot, otherwise the code's frame. */
  function AperiodicSrsTime(fs: FrameStructure, frame: nat, slot: nat, slotOffset: int, rxToTx: nat): (r: Outcome<Option<TxTime>>)
    requires PeriodShaped(fs) && fs.slotsPerFrame > 0
    ensures r.Fatal? <==> slotOffset <= rxToTx
    ensures r.Ok? ==> (r.value.Some? <==> IsUlSlot(fs, SrsSlot(slot, slotOffset, fs.slotsPerFrame)))
    ensures r.Ok? && r.value.Some? ==>
      r.value.value == TxTime(SrsFrameAsWritten(frame, slot, slotOffset, fs.slotsPerFrame), SrsSlot(slot, slotOffset, fs.slotsPerFrame))
  {
    if slotOffset <= rxToTx then Fatal
    else
      var schedSlot := SrsSlot(slot, slotOffset, fs.slotsPerFrame);
      if !IsUlSlot(fs, schedSlot) then Ok(None)
      else Ok(Some(TxTime(SrsFrameAsWritten(frame, slot, slotOffset, fs.slotsPerFrame), schedSlot)))
  }

  /** The aperiodic SRS time with the frame the trigger time advanced by
      the offset lies in: the same checks, the corrected frame. */
  function CorrectedSrsTime(fs: FrameStructure, frame: nat, slot: nat, slotOffset: int, rxToTx: nat): (r: Outcome<Option<TxTime>>)
    requires PeriodShaped(fs) && fs.slotsPerFrame > 0
    ensures r.Fatal? <==> slotOffset <= rxToTx
    ensures r.Ok? ==> (r.value.Some? <==> IsUlSlot(fs, SrsSlot(slot, slotOffset, fs.slotsPerFrame)))
    ensures r.Ok? && r.value.Some? ==> r.value.value.frame < MaxFrameNumber
  {
    if slotOffset <= rxToTx then Fatal
    else
      var schedSlot := SrsSlot(slot, slotOffset, fs.slotsPerFrame);
      if !IsUlSlot(fs, schedSlot) then Ok(None)
      else Ok(Some(TxTime(SrsFrame(frame, slot, slotOffset, fs.slotsPerFrame), schedSlot)))
  }

  /** The slot of the SRS within its frame. */
  function SrsSlot(slot: nat, slotOffset: int, slotsPerFrame: nat): (s: nat)
    requires slotsPerFrame > 0
    ensures s < slotsPerFrame
  {
    if slot + slotOffset >= 0 then (slot + slotOffset) % slotsPerFrame else 0
  }

  /** A corrected aperiodic SRS sits `slotOffset` slots after its
      trigger on the SFN cycle, in an UL slot. */
  lemma CorrectedSrsTimeIsAdvance(fs: FrameStructure, frame: nat, slot: nat, slotOffset: int, rxToTx: nat)
    requires PeriodShaped(fs) && fs.slotsPerFrame > 0
    requires CorrectedSrsTime(fs, frame, slot, slotOffset, rxToTx).Ok?
    requires CorrectedSrsTime(fs, frame, slot, slotOffset, rxToTx).value.Some?
    ensures CorrectedSrsTime(fs, frame, slot, slotOffset, rxToTx).value.value == Advance(frame, slot, slotOffset, fs.slotsPerFrame)
    ensures IsUlSlot(fs, CorrectedSrsTime(fs, frame, slot, slotOffset, rxToTx).value.value.slot)
    ensures AbsoluteSlot(CorrectedSrsTime(fs, frame, slot, slotOffset, rxToTx).value.value, fs.slotsPerFrame)
         == (frame * fs.slotsPerFrame + slot + slotOffset) % (fs.slotsPerFrame * MaxFrameNumber)
  {
    SrsTimeIsAdvance(frame, slot, slotOffset, fs.slotsPerFrame);
  }

  /** The code and the corrected scheduling stop, skip and pick the slot
      alike; they differ only in the frame, and only through the frame
      formula. */
  lemma AperiodicSrsTimeDiffersInFrame(fs: FrameStructure, frame: nat, slot: nat, slotOffset: int, rxToTx: nat)
    requires PeriodShaped(fs) && fs.slotsPerFrame > 0
    ensures var a, c := AperiodicSrsTime(fs, frame, slot, slotOffset, rxToTx), CorrectedSrsTime(fs, frame, slot, slotOffset, rxToTx);
      && (a.Ok? <==> c.Ok?)
      && (a.Ok? ==> (a.value.Some? <==> c.value.Some?))
      && (a.Ok? && a.value.Some? ==>
            a.value.value.slot == c.value.value.slot
            && a.value.value.frame == SrsFrameAsWritten(frame, slot, slotOffset, fs.slotsPerFrame)
            && c.value.value.frame == SrsFrame(frame, slot, slotOffset, fs.slotsPerFrame))
  {
  }

  /** For a trigger in slot 5 of frame 0, an offset of 3 and 20 slots per
      frame with slot 8 an UL slot, the code schedules frame 5 and the
      corrected scheduling frame 0. */
  lemma AsWrittenSrsTimeSkipsAhead(fs: FrameStructure)
    requires PeriodShaped(fs) && fs.slotsPerFrame == 20 && IsUlSlot(fs, 8)
    ensures AperiodicSrsTime(fs, 0, 5, 3, 2) == Ok(Some(TxTime(5, 8)))
    ensures CorrectedSrsTime(fs, 0, 5, 3, 2) == Ok(Some(TxTime(0, 8)))
  {
    assert SrsSlot(5, 3, 20) == 8;
  }

  // ---------------------------------------------------------------
  // BSR index (TS 38.321 Tables 6.1.3.1-1 and 6.1.3.1-2)
  // ---------------------------------------------------------------

  predicate StrictlyAscending(table: seq<int>) {
    forall i, j :: 0 <= i < j < |table| ==> table[i] < table[j]
  }

  /** Reference rule: the first index whose level covers the buffer,
      searching from `from`; the last index when none does. */
  function LeastCoverFrom(table: seq<int>, value: int, from: nat): (r: nat)
    requires from < |table|
    ensures from <= r < |table|
    decreases |table| - from
  {
    if from == |table| - 1 || value <= table[from] then from
    else LeastCoverFrom(table, value, from + 1)
  }

  function LeastCover(table: seq<int>, value: int): nat
    requires |table| > 0
  {
    LeastCoverFrom(table, value, 0)
  }

  /** An index is the least cover when it covers (or is last) and every
      earlier level is below the value. */
  lemma {:induction false} LeastCoverIs(table: seq<int>, value: int, from: nat, i: nat)
    requires from <= i < |table|
    requires i == |table| - 1 || value <= table[i]
    requires forall j :: from <= j < i ==> table[j] < value
    ensures LeastCoverFrom(table, value, from) == i
    decreases i - from
  {
    if from < i {
      LeastCoverIs(table, value, from + 1, i);
    }
  }

  /** `nr_locate_BsrIndexByBufferSize`: 0 for an empty buffer, otherwise
      a bisection over the level table. On an ascending table whose first
      level does not exceed the value, it returns the first level that
      covers the buffer size (the last index when none does). */
  method LocateBsrIndex(table: seq<int>, value: int) returns (r: nat)
    requires |table| >= 2
    ensures r < |table|
    ensures value == 0 ==> r == 0
    ensures value != 0 && StrictlyAscending(table) && table[0] <= value ==> r == LeastCover(table, value)
  {
    if value == 0 {
      return 0;
    }
    var jl := 0;
    var ju := |table| - 1;
    var ascend := table[ju] >= table[jl];
    while ju - jl > 1
      invariant 0 <= jl < ju <= |table| - 1
      invariant StrictlyAscending(table) && table[0] <= value ==> table[jl] <= value
      invariant StrictlyAscending(table) ==> ju == |table| - 1 || value < table[ju]
      decreases ju - jl
    {
      var jm := (ju + jl) / 2;
      if (value >= table[jm]) == ascend {
        jl := jm;
      } else {
        ju := jm;
      }
    }
    if value == table[jl] {
      r := jl;
    } else {
      r := jl + 1;
    }
    if StrictlyAscending(table) && table[0] <= value {
      if r == jl {
        LeastCoverIs(table, value, 0, jl);
      } else {
        LeastCoverIs(table, value, 0, ju);
      }
    }
  }

  // ---------------------------------------------------------------
  // CSI-RS frequency band (TS 38.214 section 5.2.2.3.1)
  // ---------------------------------------------------------------

  const Two32 := 0x1_0000_0000

  /** `configure_csi_resource_mapping` as written: the room left in the
      BWP is computed in 32-bit unsigned arithmetic, so a band starting
      past the BWP end sees a huge room and keeps its configured width. */
  function CsiRbsAsWritten(startingRb: nat, nrofRbs: nat, bwpSize: nat, bwpStart: nat): Outcome<(nat, nat)> {
    var startRb := Max(startingRb, bwpStart);
    var room := (bwpStart + bwpSize - startRb) % Two32;
    var rbs := if nrofRbs > room then room else nrofRbs;
    if rbs < 24 then Fatal else Ok((startRb, rbs))
  }

  /** The CSI-RS band moved into the BWP: it starts no earlier than the
      BWP, keeps its configured width unless that would run past the BWP
      end, in which case it stops there; fewer than 24 RBs stop the UE. */
  function ConfigureCsiRbs(startingRb: nat, nrofRbs: nat, bwpSize: nat, bwpStart: nat): (r: Outcome<(nat, nat)>)
    ensures r.Fatal? <==> Min(nrofRbs, bwpStart + bwpSize - Max(startingRb, bwpStart)) < 24
    ensures r.Ok? ==> r.value.0 == Max(startingRb, bwpStart)
    ensures r.Ok? ==> bwpStart <= r.value.0 && r.value.0 + r.value.1 <= bwpStart + bwpSize
    ensures r.Ok? ==> 24 <= r.value.1 <= nrofRbs
    ensures r.Ok? ==> r.value.1 == nrofRbs || r.value.0 + r.value.1 == bwpStart + bwpSize
  {
    var startRb := Max(startingRb, bwpStart);
    var room := bwpStart + bwpSize - startRb;
    var rbs := if nrofRbs > room then room else nrofRbs;
    if rbs < 24 then Fatal else Ok((startRb, rbs))
  }

  /** The two agree whenever the band starts inside the BWP (or at its
      end) and the BWP fits the 32-bit arithmetic. */
  lemma CsiRbsAgreeInsideBwp(startingRb: nat, nrofRbs: nat, bwpSize: nat, bwpStart: nat)
    requires startingRb <= bwpStart + bwpSize < Two32
    ensures CsiRbsAsWritten(startingRb, nrofRbs, bwpSize, bwpStart) == ConfigureCsiRbs(startingRb, nrofRbs, bwpSize, bwpStart)
  {
    var room := bwpStart + bwpSize - Max(startingRb, bwpStart);
    ModSmall(room, Two32);
  }

  /** A 24-RB band at RB 100 with a 24-RB BWP at RB 0 lies wholly outside
      the BWP, yet the code accepts it unclipped. */
  lemma AsWrittenCsiRbsAcceptsOutsideBand()
    ensures CsiRbsAsWritten(100, 24, 24, 0) == Ok((100, 24))
    ensures ConfigureCsiRbs(100, 24, 24, 0) == Fatal
  {
    assert (24 - 100) % Two32 == Two32 - 76;
  }

  // ---------------------------------------------------------------
  // Per-slot UL configuration list (lockGet_ul_config and friends)
  // ---------------------------------------------------------------

  /** `fapi_nr_ul_config_request_t` of one slot: the frame and slot it
      was last stamped with, and the types of its PDUs in order. */
  datatype UlConfigSlot = UlConfigSlot(frame: int, slot: int, pdus: seq<int>)

  /** No slot holds more PDUs than the list has room for. */
  predicate WithinCapacity(configs: seq<UlConfigSlot>, capacity: nat) {
    forall s :: 0 <= s < |configs| ==> |configs[s].pdus| <= capacity
  }

  /** The PDUs a slot keeps before a new one is added for (frame, slot):
      a list stamped for another occasion is discarded. */
  function Kept(c: UlConfigSlot, frameTx: int, slotTx: int): seq<int> {
    if |c.pdus| != 0 && (c.frame != frameTx || c.slot != slotTx) then [] else c.pdus
  }

  /** `lockGet_ul_config`: append a PDU of type `pduType` to the list of
      `slotTx`, returning the new list and the PDU's position in it.
      Nothing is returned (and nothing changes) for a slot that is not
      UL; a full list is stamped but not extended. */
  function LockGetUlConfig(fs: FrameStructure, configs: seq<UlConfigSlot>, frameTx: int, slotTx: nat,
                           pduType: int, capacity: nat): (r: (seq<UlConfigSlot>, Option<nat>))
    requires PeriodShaped(fs) && slotTx < |configs|
    ensures |r.0| == |configs|
    ensures forall s :: 0 <= s < |configs| && s != slotTx ==> r.0[s] == configs[s]
    ensures !IsUlSlot(fs, slotTx) ==> r.0 == configs && r.1.None?
    ensures IsUlSlot(fs, slotTx) ==> r.0[slotTx].frame == frameTx && r.0[slotTx].slot == slotTx
    ensures r.1.Some? <==> IsUlSlot(fs, slotTx) && |Kept(configs[slotTx], frameTx, slotTx)| < capacity
    ensures r.1.Some? ==>
      r.0[slotTx].pdus == Kept(configs[slotTx], frameTx, slotTx) + [pduType]
      && r.1.value == |r.0[slotTx].pdus| - 1
    ensures IsUlSlot(fs, slotTx) && r.1.None? ==> r.0[slotTx].pdus == Kept(configs[slotTx], frameTx, slotTx)
  {
    if !IsUlSlot(fs, slotTx) then (configs, None)
    else
      var kept := Kept(configs[slotTx], frameTx, slotTx);
      if |kept| >= capacity then (configs[slotTx := UlConfigSlot(frameTx, slotTx, kept)], None)
      else (configs[slotTx := UlConfigSlot(frameTx, slotTx, kept + [pduType])], Some(|kept|))
  }

  /** Adding PDUs never overfills a list. */
  lemma LockGetKeepsCapacity(fs: FrameStructure, configs: seq<UlConfigSlot>, frameTx: int, slotTx: nat,
                             pduType: int, capacity: nat)
    requires PeriodShaped(fs) && slotTx < |configs| && WithinCapacity(configs, capacity)
    ensures WithinCapacity(LockGetUlConfig(fs, configs, frameTx, slotTx, pduType, capacity).0, capacity)
  {
    var r := LockGetUlConfig(fs, configs, frameTx, slotTx, pduType, capacity);
    forall s | 0 <= s < |r.0|
      ensures |r.0[s].pdus| <= capacity
    {
      if s != slotTx {
        assert r.0[s] == configs[s];
      }
    }
  }

  /** Two PDUs requested for the same occasion end up in request order. */
  lemma LockGetTwiceKeepsOrder(fs: FrameStructure, configs: seq<UlConfigSlot>, frameTx: int, slotTx: nat,
                               a: int, b: int, capacity: nat)
    requires PeriodShaped(fs) && slotTx < |configs|
    requires LockGetUlConfig(fs, configs, frameTx, slotTx, a, capacity).1.Some?
    requires |Kept(configs[slotTx], frameTx, slotTx)| + 1 < capacity
    ensures var first := LockGetUlConfig(fs, configs, frameTx, slotTx, a, capacity).0;
      var second := LockGetUlConfig(fs, first, frameTx, slotTx, b, capacity);
      second.1.Some? && second.0[slotTx].pdus == Kept(configs[slotTx], frameTx, slotTx) + [a, b]
  {
    var first := LockGetUlConfig(fs, configs, frameTx, slotTx, a, capacity).0;
    assert Kept(first[slotTx], frameTx, slotTx) == first[slotTx].pdus;
  }

  /** `remove_ul_config_last_item` as written: it steps the PDU's pointer
      to the counter instead of the counter, so the list keeps its PDUs. */
  function RemoveUlConfigLastItemAsWritten(configs: seq<UlConfigSlot>, slotTx: nat): seq<UlConfigSlot>
    requires slotTx < |configs|
  {
    configs
  }

  /** Dropping the PDU just added: the list shrinks by its last entry. */
  function RemoveUlConfigLastItem(configs: seq<UlConfigSlot>, slotTx: nat): (r: seq<UlConfigSlot>)
    requires slotTx < |configs| && |configs[slotTx].pdus| > 0
    ensures |r| == |configs|
    ensures forall s :: 0 <= s < |configs| && s != slotTx ==> r[s] == configs[s]
    ensures r[slotTx].pdus + [configs[slotTx].pdus[|configs[slotTx].pdus| - 1]] == configs[slotTx].pdus
  {
    var c := configs[slotTx];
    configs[slotTx := c.(pdus := c.pdus[..|c.pdus| - 1])]
  }

  /** Adding a PDU and then dropping it leaves the list as it was before
      the addition (after any reset for a new occasion). */
  lemma AddThenRemoveRestores(fs: FrameStructure, configs: seq<UlConfigSlot>, frameTx: int, slotTx: nat,
                              pduType: int, capacity: nat)
    requires PeriodShaped(fs) && slotTx < |configs|
    requires LockGetUlConfig(fs, configs, frameTx, slotTx, pduType, capacity).1.Some?
    ensures var added := LockGetUlConfig(fs, configs, frameTx, slotTx, pduType, capacity).0;
      RemoveUlConfigLastItem(added, slotTx)[slotTx].pdus == Kept(configs[slotTx], frameTx, slotTx)
  {
    var added := LockGetUlConfig(fs, configs, frameTx, slotTx, pduType, capacity).0;
    var kept := Kept(configs[slotTx], frameTx, slotTx);
    assert added[slotTx].pdus[..|added[slotTx].pdus| - 1] == kept;
  }

  /** With the code as written, a PDU whose configuration failed is still
      counted: the list keeps one entry too many. */
  lemma AsWrittenRemoveKeepsFailedPdu(fs: FrameStructure, configs: seq<UlConfigSlot>, frameTx: int, slotTx: nat,
                                      pduType: int, capacity: nat)
    requires PeriodShaped(fs) && slotTx < |configs|
    requires LockGetUlConfig(fs, configs, frameTx, slotTx, pduType, capacity).1.Some?
    ensures var added := LockGetUlConfig(fs, configs, frameTx, slotTx, pduType, capacity).0;
      var removed := RemoveUlConfigLastItemAsWritten(added, slotTx);
      |removed[slotTx].pdus| == |Kept(configs[slotTx], frameTx, slotTx)| + 1
      && removed[slotTx].pdus[|removed[slotTx].pdus| - 1] == pduType
  {
  }

  /** `release_ul_config`: with `clearIt` the slot's list is emptied. */
  function ReleaseUlConfig(configs: seq<UlConfigSlot>, slotTx: nat, clearIt: bool): (r: seq<UlConfigSlot>)
    requires slotTx < |configs|
    ensures |r| == |configs|
    ensures forall s :: 0 <= s < |configs| && s != slotTx ==> r[s] == configs[s]
    ensures r[slotTx].pdus == (if clearIt then [] else configs[slotTx].pdus)
    ensures r[slotTx].frame == configs[slotTx].frame && r[slotTx].slot == configs[slotTx].slot
  {
    if clearIt then configs[slotTx := configs[slotTx].(pdus := [])] else configs
  }

  /** `clear_ul_config_request`: empty the lists of the first `slots`
      slots of the frame. */
  function ClearUlConfigRequest(configs: seq<UlConfigSlot>, slots: nat): (r: seq<UlConfigSlot>)
    requires slots <= |configs|
    ensures |r| == |configs|
    ensures forall s :: 0 <= s < slots ==> r[s].pdus == [] && r[s].frame == configs[s].frame && r[s].slot == configs[s].slot
    ensures forall s :: slots <= s < |configs| ==> r[s] == configs[s]
  {
    seq(|configs|, s requires 0 <= s < |configs| => if s < slots then configs[s].(pdus := []) else configs[s])
  }

  /** After clearing the frame, any PDU fits again. */
  lemma ClearedSlotAccepts(fs: FrameStructure, configs: seq<UlConfigSlot>, frameTx: int, slotTx: nat,
                           pduType: int, capacity: nat)
    requires PeriodShaped(fs) && slotTx < fs.slotsPerFrame <= |configs| && capacity > 0
    requires IsUlSlot(fs, slotTx)
    ensures var cleared := ClearUlConfigRequest(configs, fs.slotsPerFrame);
      var r := LockGetUlConfig(fs, cleared, frameTx, slotTx, pduType, capacity);
      r.1 == Some(0) && r.0[slotTx].pdus == [pduType]
  {
    var cleared := ClearUlConfigRequest(configs, fs.slotsPerFrame);
    assert cleared[slotTx].pdus == [];
  }

  // ---------------------------------------------------------------
  // PRACH frames (TS 38.211 Tables 6.3.3.2-2 to 6.3.3.2-4)
  // ---------------------------------------------------------------

  /** `is_prach_frame`: SFN mod x == y, and with several association
      periods the frame must also fall in the selected one. */
  function IsPrachFrame(frame: nat, configPeriod: nat, frameOffset: int, associationPeriods: nat,
                        associationPeriodIdx: int): (r: bool)
    requires configPeriod > 0 && associationPeriods > 0
    ensures r <==> frame % configPeriod == frameOffset
                   && (associationPeriods > 1 ==> (frame / configPeriod) % associationPeriods == associationPeriodIdx)
  {
    var framePeriod := configPeriod * associationPeriods;
    var frameInPeriod := frame % framePeriod;
    ModOfQuotient(frame, configPeriod, associationPeriods);
    DivModUnique(frameInPeriod, configPeriod, (frame / configPeriod) % associationPeriods, frame % configPeriod);
    if associationPeriods > 1 then
      if frameInPeriod / configPeriod != associationPeriodIdx then false
      else frameInPeriod % configPeriod == frameOffset
    else frameInPeriod == frameOffset
  }

  /** PRACH frames repeat with the association pattern period. */
  lemma PrachFramePeriodic(frame: nat, configPeriod: nat, frameOffset: int, associationPeriods: nat,
                           associationPeriodIdx: int)
    requires configPeriod > 0 && associationPeriods > 0
    ensures IsPrachFrame(frame + configPeriod * associationPeriods, configPeriod, frameOffset, associationPeriods, associationPeriodIdx)
         == IsPrachFrame(frame, configPeriod, frameOffset, associationPeriods, associationPeriodIdx)
  {
    var p := configPeriod * associationPeriods;
    var q, s := frame / configPeriod, frame % configPeriod;
    DivModUnique(frame + p, configPeriod, q + associationPeriods, s);
    ModAddPeriod(q, associationPeriods);
  }

  // ---------------------------------------------------------------
  // Logical channels
  // ---------------------------------------------------------------

  /** `lcid_buffer_index`: LCIDs 1..maxLcid use slots 0..maxLcid-1 of the
      scheduling-info array; any other LCID stops the UE. */
  function LcidBufferIndex(lcid: int, maxLcid: nat): (r: Outcome<nat>)
    ensures r.Ok? <==> 0 < lcid <= maxLcid
    ensures r.Ok? ==> r.value < maxLcid && r.value + 1 == lcid
  {
    if 0 < lcid <= maxLcid then Ok(lcid - 1) else Fatal
  }

  /** `get_count_lcids_same_priority`: how many of the active channels
      from `start` on share the priority of channel `start`. */
  method CountSamePriority(priorities: seq<int>, start: nat, total: nat) returns (n: nat)
    requires start < |priorities| && total <= |priorities|
    ensures start < total ==> n == multiset(priorities[start..total])[priorities[start]]
    ensures start < total ==> 1 <= n <= total - start
    ensures start >= total ==> n == 0
  {
    n := 0;
    var index := start;
    while index < total
      invariant start <= index || total <= start
      invariant start < total ==> start <= index <= total && n == multiset(priorities[start..index])[priorities[start]]
      invariant start >= total ==> n == 0
      decreases total - index
    {
      assert priorities[start..index + 1] == priorities[start..index] + [priorities[index]];
      if priorities[start] == priorities[index] {
        n := n + 1;
      }
      index := index + 1;
    }
    if start < total {
      assert priorities[start..total] == [priorities[start]] + priorities[start + 1..total];
      assert |multiset(priorities[start..total])| == total - start;
      assert multiset(priorities[start..total])[priorities[start]] <= |multiset(priorities[start..total])|;
    }
  }
}
