/** The TDD frame structure shared by the gNB MAC and the PHY: the
    per-period slot bitmap (TS 38.213 section 11.1) and the slot
    classification built on it. */
module TddFrame {
  import opened Arithmetic

  /** Symbols in one slot with the normal cyclic prefix. */
  const SymbolsPerSlot := 14

  datatype SlotType = TddDownlink | TddUplink | TddMixed

  /** One entry of the period bitmap. The symbol counts are meaningful
      for mixed slots only; for full slots they hold whatever was left
      there before. */
  datatype SlotBitmap = SlotBitmap(slotType: SlotType, numDlSymbols: nat, numUlSymbols: nat)

  /** `frame_structure_t` with its `tdd_period_config_t`. */
  datatype FrameStructure = FrameStructure(
    isTdd: bool,
    slotsPerFrame: nat,
    periodsPerFrame: nat,
    slotsPerPeriod: nat,
    numDlSlots: int,
    numUlSlots: int,
    bitmap: seq<SlotBitmap>)

  /** What every reader of the bitmap relies on: a non-empty period whose
      slots all have a bitmap entry. */
  predicate PeriodShaped(fs: FrameStructure) {
    fs.slotsPerPeriod > 0 && |fs.bitmap| >= fs.slotsPerPeriod
  }

  /** Index of a slot of the frame within its TDD period. */
  function SlotInPeriod(fs: FrameStructure, slot: nat): (s: nat)
    requires PeriodShaped(fs)
    ensures s < fs.slotsPerPeriod
  {
    slot % fs.slotsPerPeriod
  }

  function Entry(fs: FrameStructure, slot: nat): SlotBitmap
    requires PeriodShaped(fs)
  {
    fs.bitmap[SlotInPeriod(fs, slot)]
  }

  /** `is_mixed_slot`: never under FDD. */
  predicate IsMixedSlot(fs: FrameStructure, slot: nat)
    requires PeriodShaped(fs)
  {
    fs.isTdd && Entry(fs, slot).slotType == TddMixed
  }

  /** `is_ul_slot`: every slot under FDD, otherwise a full UL slot or a
      mixed slot with at least one UL symbol. */
  predicate IsUlSlot(fs: FrameStructure, slot: nat)
    requires PeriodShaped(fs)
  {
    !fs.isTdd
    || (IsMixedSlot(fs, slot) && Entry(fs, slot).numUlSymbols != 0)
    || Entry(fs, slot).slotType == TddUplink
  }

  /** `is_dl_slot`: every slot under FDD, otherwise a full DL slot or a
      mixed slot with at least one DL symbol. */
  predicate IsDlSlot(fs: FrameStructure, slot: nat)
    requires PeriodShaped(fs)
  {
    !fs.isTdd
    || (IsMixedSlot(fs, slot) && Entry(fs, slot).numDlSymbols != 0)
    || Entry(fs, slot).slotType == TddDownlink
  }

  /** Slots repeat with the period. */
  lemma ClassificationPeriodic(fs: FrameStructure, slot: nat)
    requires PeriodShaped(fs)
    ensures IsUlSlot(fs, slot + fs.slotsPerPeriod) == IsUlSlot(fs, slot)
    ensures IsDlSlot(fs, slot + fs.slotsPerPeriod) == IsDlSlot(fs, slot)
    ensures IsMixedSlot(fs, slot + fs.slotsPerPeriod) == IsMixedSlot(fs, slot)
  {
    ModAddPeriod(slot, fs.slotsPerPeriod);
  }

  /** Under TDD a full slot is either UL or DL, never both. */
  lemma FullSlotsOneDirection(fs: FrameStructure, slot: nat)
    requires PeriodShaped(fs) && fs.isTdd && !IsMixedSlot(fs, slot)
    ensures IsUlSlot(fs, slot) != IsDlSlot(fs, slot)
  {
  }

  // ---------------------------------------------------------------
  // Counting bitmap entries
  // ---------------------------------------------------------------

  /** The four counts the MAC keeps or derives: full DL slots, full UL
      slots, and slots carrying DL (resp. UL) symbols, where a mixed slot
      counts when it has symbols of that direction. */
  datatype Tally = FullDlSlots | FullUlSlots | DlSlots | UlSlots

  predicate Counted(t: Tally, b: SlotBitmap) {
    match t
    case FullDlSlots => b.slotType == TddDownlink
    case FullUlSlots => b.slotType == TddUplink
    case DlSlots => b.slotType == TddDownlink || (b.slotType == TddMixed && b.numDlSymbols > 0)
    case UlSlots => b.slotType == TddUplink || (b.slotType == TddMixed && b.numUlSymbols > 0)
  }

  /** Number of entries of `bs` counted by `t`. */
  function Count(t: Tally, bs: seq<SlotBitmap>): (n: nat)
    ensures n <= |bs|
    decreases |bs|
  {
    if |bs| == 0 then 0
    else Count(t, bs[..|bs| - 1]) + (if Counted(t, bs[|bs| - 1]) then 1 else 0)
  }

  lemma {:induction false} CountAppend(t: Tally, a: seq<SlotBitmap>, b: seq<SlotBitmap>)
    ensures Count(t, a + b) == Count(t, a) + Count(t, b)
    decreases |b|
  {
    if |b| > 0 {
      var front := b[..|b| - 1];
      assert (a + b)[..|a + b| - 1] == a + front;
      assert (a + b)[|a + b| - 1] == b[|b| - 1];
      CountAppend(t, a, front);
    } else {
      assert a + b == a;
    }
  }

  /** Under TDD the DL and UL tallies are exactly the slot predicates. */
  lemma CountedIsClassification(fs: FrameStructure, slot: nat)
    requires PeriodShaped(fs) && fs.isTdd
    ensures Counted(DlSlots, Entry(fs, slot)) <==> IsDlSlot(fs, slot)
    ensures Counted(UlSlots, Entry(fs, slot)) <==> IsUlSlot(fs, slot)
  {
  }
}
