/** The PHY side of the TDD configuration (TS 38.213 section 11.1): the
    per-symbol table of the FAPI configuration request built from the
    period bitmap, the slot type read back from that table, the search
    for the next slot carrying downlink, and the dedicated per-slot
    configuration list. */
module PhyFrameConfig {
  import opened Common
  import opened Arithmetic
  import opened TddFrame

  // ---------------------------------------------------------------
  // The per-symbol table (set_tdd_config_nr)
  // ---------------------------------------------------------------

  /** Values of one symbol in `max_num_of_symbol_per_slot_list`. */
  const DlSymbol := 0
  const UlSymbol := 1
  const FlexibleSymbol := 2

  /** A mixed slot needs at least one flexible symbol between its DL and
      UL symbols. */
  predicate LegalMixed(b: SlotBitmap) {
    b.numDlSymbols + b.numUlSymbols < SymbolsPerSlot
  }

  /** Entries the table can be built from. */
  predicate Configurable(b: SlotBitmap) {
    b.slotType == TddMixed ==> LegalMixed(b)
  }

  /** The value of symbol `sym` of a slot: all DL, all UL, or for a mixed
      slot DL symbols first, UL symbols last and flexible ones between. */
  function SymbolValue(b: SlotBitmap, sym: int): int {
    match b.slotType
    case TddDownlink => DlSymbol
    case TddUplink => UlSymbol
    case TddMixed =>
      if sym < b.numDlSymbols then DlSymbol
      else if sym < SymbolsPerSlot - b.numUlSymbols then FlexibleSymbol
      else UlSymbol
  }

  function SlotSymbols(b: SlotBitmap): (row: seq<int>)
    ensures |row| == SymbolsPerSlot
  {
    seq(SymbolsPerSlot, sym => SymbolValue(b, sym))
  }

  /** The symbol loops of `set_tdd_config_nr` for one slot, on a row the
      allocation left at zero. */
  method FillSlotConfig(b: SlotBitmap) returns (row: seq<int>)
    requires Configurable(b)
    ensures row == SlotSymbols(b)
  {
    row := seq(SymbolsPerSlot, _ => 0);
    match b.slotType {
      case TddDownlink =>
        for sym := 0 to SymbolsPerSlot
          invariant |row| == SymbolsPerSlot
          invariant forall j :: 0 <= j < sym ==> row[j] == SymbolValue(b, j)
        {
          row := row[sym := DlSymbol];
        }
      case TddUplink =>
        for sym := 0 to SymbolsPerSlot
          invariant |row| == SymbolsPerSlot
          invariant forall j :: 0 <= j < sym ==> row[j] == SymbolValue(b, j)
        {
          row := row[sym := UlSymbol];
        }
      case TddMixed =>
        var nDl, nUl := b.numDlSymbols, b.numUlSymbols;
        for sym := 0 to nDl
          invariant |row| == SymbolsPerSlot
          invariant forall j :: 0 <= j < sym ==> row[j] == SymbolValue(b, j)
        {
          row := row[sym := DlSymbol];
        }
        for sym := nDl to SymbolsPerSlot - nUl
          invariant |row| == SymbolsPerSlot
          invariant forall j :: 0 <= j < sym ==> row[j] == SymbolValue(b, j)
        {
          row := row[sym := FlexibleSymbol];
        }
        for sym := SymbolsPerSlot - nUl to SymbolsPerSlot
          invariant |row| == SymbolsPerSlot
          invariant forall j :: 0 <= j < sym ==> row[j] == SymbolValue(b, j)
        {
          row := row[sym := UlSymbol];
        }
    }
  }

  /** `set_tdd_config_nr`: one row of symbols per slot of the frame, each
      read from the bitmap entry of the slot's place in the period. A
      mixed slot with no room for a flexible symbol stops the program. */
  method SetTddConfig(fs: FrameStructure) returns (o: Outcome<seq<seq<int>>>)
    requires PeriodShaped(fs)
    ensures o.Fatal? <==> exists s :: 0 <= s < fs.slotsPerFrame && !Configurable(Entry(fs, s))
    ensures o.Ok? ==> |o.value| == fs.slotsPerFrame
    ensures o.Ok? ==> forall s :: 0 <= s < fs.slotsPerFrame ==> o.value[s] == SlotSymbols(Entry(fs, s))
  {
    var table := seq(fs.slotsPerFrame, _ => seq(SymbolsPerSlot, _ => 0));
    var slot := 0;
    while slot != fs.slotsPerFrame
      invariant 0 <= slot <= fs.slotsPerFrame && |table| == fs.slotsPerFrame
      invariant forall s :: 0 <= s < slot ==> Configurable(Entry(fs, s)) && table[s] == SlotSymbols(Entry(fs, s))
      decreases fs.slotsPerFrame - slot
    {
      var b := Entry(fs, slot);
      if b.slotType == TddMixed && b.numDlSymbols + b.numUlSymbols >= SymbolsPerSlot {
        return Fatal;
      }
      var row := FillSlotConfig(b);
      table := table[slot := row];
      slot := slot + 1;
    }
    return Ok(table);
  }

  /** Entries of `row` equal to `v`. */
  function CountOf(row: seq<int>, v: int): (n: nat)
    ensures n <= |row|
    decreases |row|
  {
    if |row| == 0 then 0
    else CountOf(row[..|row| - 1], v) + (if row[|row| - 1] == v then 1 else 0)
  }

  /** Every entry is `v` exactly when all of them are counted. */
  lemma {:induction false} CountOfAll(row: seq<int>, v: int)
    ensures CountOf(row, v) == |row| <==> forall i :: 0 <= i < |row| ==> row[i] == v
    decreases |row|
  {
    if |row| > 0 {
      var front := row[..|row| - 1];
      CountOfAll(front, v);
      if CountOf(row, v) == |row| {
        forall i | 0 <= i < |row|
          ensures row[i] == v
        {
          if i < |front| {
            assert row[i] == front[i];
          }
        }
      }
      if forall i :: 0 <= i < |row| ==> row[i] == v {
        forall i | 0 <= i < |front|
          ensures front[i] == v
        {
          assert front[i] == row[i];
        }
      }
    }
  }

  /** The symbols of a mixed slot split into its DL symbols, its UL
      symbols and the flexible rest. */
  lemma MixedSymbolCounts(b: SlotBitmap)
    requires b.slotType == TddMixed && LegalMixed(b)
    ensures CountOf(SlotSymbols(b), DlSymbol) == b.numDlSymbols
    ensures CountOf(SlotSymbols(b), UlSymbol) == b.numUlSymbols
    ensures CountOf(SlotSymbols(b), FlexibleSymbol) == SymbolsPerSlot - b.numDlSymbols - b.numUlSymbols
  {
    var row := SlotSymbols(b);
    MixedPrefixCounts(b, SymbolsPerSlot);
    assert row[..SymbolsPerSlot] == row;
  }

  lemma {:induction false} MixedPrefixCounts(b: SlotBitmap, n: nat)
    requires b.slotType == TddMixed && LegalMixed(b) && n <= SymbolsPerSlot
    ensures var flexEnd := SymbolsPerSlot - b.numUlSymbols;
      && CountOf(SlotSymbols(b)[..n], DlSymbol) == Min(n, b.numDlSymbols)
      && CountOf(SlotSymbols(b)[..n], FlexibleSymbol) == Max(0, Min(n, flexEnd) - b.numDlSymbols)
      && CountOf(SlotSymbols(b)[..n], UlSymbol) == Max(0, n - flexEnd)
    decreases n
  {
    if n > 0 {
      var row := SlotSymbols(b);
      MixedPrefixCounts(b, n - 1);
      assert row[..n][..n - 1] == row[..n - 1];
      assert row[..n][n - 1] == SymbolValue(b, n - 1);
    }
  }

  // ---------------------------------------------------------------
  // nr_slot_select
  // ---------------------------------------------------------------

  /** Slot types `nr_slot_select` returns. */
  const DownlinkSlotCode := 1
  const UplinkSlotCode := 2
  const MixedSlotCode := 3

  /** Under FDD every slot is both: the bitwise or of the UL and DL codes,
      which is the mixed code. */
  const FddSlotCode := 3

  predicate TableShaped(table: seq<seq<int>>) {
    forall s :: 0 <= s < |table| ==> |table[s]| == SymbolsPerSlot
  }

  /** `nr_slot_select`; `fdd` is the duplex type of the cell. The frame
      number is not used. */
  function SlotSelect(fdd: bool, table: seq<seq<int>>, slot: nat): int
    requires slot < |table| && TableShaped(table)
  {
    if fdd then FddSlotCode
    else if CountOf(table[slot], UlSymbol) == SymbolsPerSlot then UplinkSlotCode
    else if CountOf(table[slot], DlSymbol) == SymbolsPerSlot then DownlinkSlotCode
    else MixedSlotCode
  }

  /** Under TDD a slot is UL when all its symbols are UL, DL when all are
      DL, and mixed otherwise. */
  lemma SlotSelectMeaning(table: seq<seq<int>>, slot: nat)
    requires slot < |table| && TableShaped(table)
    ensures SlotSelect(false, table, slot) == UplinkSlotCode <==>
      forall sym :: 0 <= sym < SymbolsPerSlot ==> table[slot][sym] == UlSymbol
    ensures SlotSelect(false, table, slot) == DownlinkSlotCode <==>
      forall sym :: 0 <= sym < SymbolsPerSlot ==> table[slot][sym] == DlSymbol
    ensures SlotSelect(false, table, slot) == MixedSlotCode <==>
      (exists sym :: 0 <= sym < SymbolsPerSlot && table[slot][sym] != UlSymbol)
      && (exists sym :: 0 <= sym < SymbolsPerSlot && table[slot][sym] != DlSymbol)
  {
    CountOfAll(table[slot], UlSymbol);
    CountOfAll(table[slot], DlSymbol);
  }

  /** The code `nr_slot_select` should give a bitmap slot type. */
  function TypeCode(t: SlotType): int {
    match t
    case TddDownlink => DownlinkSlotCode
    case TddUplink => UplinkSlotCode
    case TddMixed => MixedSlotCode
  }

  /** Reading back a slot that `set_tdd_config_nr` wrote gives the slot
      type of its bitmap entry. */
  lemma SelectAfterConfig(fs: FrameStructure, table: seq<seq<int>>, s: nat)
    requires PeriodShaped(fs) && TableShaped(table) && s < |table|
    requires Configurable(Entry(fs, s)) && table[s] == SlotSymbols(Entry(fs, s))
    ensures SlotSelect(false, table, s) == TypeCode(Entry(fs, s).slotType)
  {
    var b := Entry(fs, s);
    SlotSelectMeaning(table, s);
    if b.slotType == TddMixed {
      assert table[s][b.numDlSymbols] == FlexibleSymbol;
    } else {
      assert table[s][0] == SymbolValue(b, 0);
    }
  }

  // ---------------------------------------------------------------
  // get_next_downlink_slot
  // ---------------------------------------------------------------

  predicate CarriesDownlink(fdd: bool, table: seq<seq<int>>, s: nat)
    requires s < |table| && TableShaped(table)
  {
    var code := SlotSelect(fdd, table, s);
    code == DownlinkSlotCode || code == MixedSlotCode
  }

  /** Slots from `from` to `x` going forward around a frame of n slots:
      1 for the next slot, n for `from` itself. */
  function CyclicDistance(from: nat, x: nat, n: nat): int {
    if x > from then x - from else x + n - from
  }

  /** Going forward round the frame from `from`, `x` comes before `y`. */
  predicate Before(from: nat, x: nat, y: nat, n: nat) {
    CyclicDistance(from, x, n) < CyclicDistance(from, y, n)
  }

  /** `get_next_downlink_slot`: the first slot after `nrSlot`, wrapping
      round the frame, that carries downlink. When no slot of the frame
      does, the search runs into the next-but-one frame and stops the
      program. */
  method GetNextDownlinkSlot(fdd: bool, table: seq<seq<int>>, nrFrame: int, nrSlot: nat) returns (o: Outcome<nat>)
    requires TableShaped(table) && nrSlot < |table|
    ensures o.Fatal? <==> forall s :: 0 <= s < |table| ==> !CarriesDownlink(fdd, table, s)
    ensures o.Ok? ==> o.value < |table| && CarriesDownlink(fdd, table, o.value)
    ensures o.Ok? ==> forall s :: 0 <= s < |table| && Before(nrSlot, s, o.value, |table|) ==> !CarriesDownlink(fdd, table, s)
  {
    var slotsPerFrame := |table|;
    var slot := nrSlot;
    var frame := nrFrame;
    ghost var d: nat := 0;
    while true
      invariant 0 <= slot < slotsPerFrame
      invariant (frame == nrFrame && slot == nrSlot + d) || (frame == nrFrame + 1 && slot + slotsPerFrame == nrSlot + d)
      invariant forall s :: 0 <= s < slotsPerFrame && CyclicDistance(nrSlot, s, slotsPerFrame) <= d ==> !CarriesDownlink(fdd, table, s)
      decreases nrFrame + 2 - frame, slotsPerFrame - slot
    {
      slot := slot + 1;
      d := d + 1;
      WrapStep(slot, slotsPerFrame);
      if slot / slotsPerFrame != 0 {
        frame := frame + 1;
      }
      slot := slot % slotsPerFrame;
      DistanceStep(nrSlot, slot, slotsPerFrame, d);
      var slotType := SlotSelect(fdd, table, slot);
      if slotType == DownlinkSlotCode || slotType == MixedSlotCode {
        assert CarriesDownlink(fdd, table, slot);
        return Ok(slot);
      }
      if frame >= nrFrame + 2 {
        return Fatal;
      }
    }
  }

  /** The slots the search has seen after d steps are those at distance at
      most d; the slot it reaches at step d is the one at distance d while
      d is at most a frame. */
  lemma DistanceStep(from: nat, slot: nat, n: nat, d: nat)
    requires from < n && slot < n && d > 0
    requires slot == from + d || slot + n == from + d || slot + 2 * n == from + d
    ensures 1 <= CyclicDistance(from, slot, n) <= n
    ensures d <= n ==> CyclicDistance(from, slot, n) == d
    ensures forall s :: 0 <= s < n && CyclicDistance(from, s, n) == d ==> s == slot
  {
  }

  // ---------------------------------------------------------------
  // The dedicated configuration list
  // ---------------------------------------------------------------

  /** One `TDD_UL_DL_SlotConfig_t`. Negative slot indices are not
      modelled. */
  datatype DedicatedSlotConfig = DedicatedSlotConfig(slotIndex: nat, nrofDownlinkSymbols: int, nrofUplinkSymbols: int)

  /** `tdd_uplink_nr` holds for each slot the bitmap of its UL symbols:
      none for a DL slot, all fourteen for an UL slot. */
  const NoUplinkSymbols := 0
  const AllUplinkSymbols := 0x3FFF

  /** `add_tdd_dedicated_configuration_nr`: the new entry goes at the
      tail of the list, after every entry already there. */
  function AddDedicated(list: seq<DedicatedSlotConfig>, slotIndex: nat, dl: int, ul: int): (r: seq<DedicatedSlotConfig>)
    ensures |r| == |list| + 1 && r[..|list|] == list
    ensures r[|list|] == DedicatedSlotConfig(slotIndex, dl, ul)
  {
    list + [DedicatedSlotConfig(slotIndex, dl, ul)]
  }

  /** The entries `set_tdd_configuration_dedicated_nr` accepts: a slot of
      the frame set wholly DL, or wholly UL. `allSymbols` is the value of
      `NR_TDD_SET_ALL_SYMBOLS`. */
  predicate DedicatedValid(c: DedicatedSlotConfig, slotsPerFrame: nat, allSymbols: int) {
    && c.slotIndex < slotsPerFrame
    && if c.nrofDownlinkSymbols != 0 then c.nrofDownlinkSymbols == allSymbols && c.nrofUplinkSymbols == 0
       else c.nrofUplinkSymbols != 0 && c.nrofUplinkSymbols == allSymbols
  }

  function DedicatedValue(c: DedicatedSlotConfig): int {
    if c.nrofDownlinkSymbols != 0 then NoUplinkSymbols else AllUplinkSymbols
  }

  /** Entry k is the first one refused. */
  predicate FirstRefused(cs: seq<DedicatedSlotConfig>, slotsPerFrame: nat, allSymbols: int, k: nat) {
    && k < |cs| && !DedicatedValid(cs[k], slotsPerFrame, allSymbols)
    && forall j :: 0 <= j < k ==> DedicatedValid(cs[j], slotsPerFrame, allSymbols)
  }

  /** The table after writing the entries of `cs` in order. */
  function Written(cs: seq<DedicatedSlotConfig>, uplink: seq<int>): (r: seq<int>)
    ensures |r| == |uplink|
    decreases |cs|
  {
    if |cs| == 0 then uplink
    else
      var c, w := cs[|cs| - 1], Written(cs[..|cs| - 1], uplink);
      if c.slotIndex < |w| then w[c.slotIndex := DedicatedValue(c)] else w
  }

  /** `set_tdd_configuration_dedicated_nr`: walks the list writing each
      entry into the table; on the first entry it refuses it returns -1,
      leaving the writes of the entries before it. */
  method SetTddConfigurationDedicated(cs: seq<DedicatedSlotConfig>, slotsPerFrame: nat, allSymbols: int, uplink: seq<int>)
    returns (code: int, out: seq<int>)
    requires slotsPerFrame <= |uplink|
    ensures code == 0 || code == -1
    ensures code == 0 <==> forall k :: 0 <= k < |cs| ==> DedicatedValid(cs[k], slotsPerFrame, allSymbols)
    ensures code == 0 ==> out == Written(cs, uplink)
    ensures code == -1 ==> exists k: nat :: FirstRefused(cs, slotsPerFrame, allSymbols, k) && out == Written(cs[..k], uplink)
  {
    out := uplink;
    var i := 0;
    while i < |cs|
      invariant 0 <= i <= |cs| && |out| == |uplink|
      invariant forall j :: 0 <= j < i ==> DedicatedValid(cs[j], slotsPerFrame, allSymbols)
      invariant out == Written(cs[..i], uplink)
    {
      var c := cs[i];
      assert cs[..i + 1][..i] == cs[..i];
      if c.slotIndex < slotsPerFrame {
        if c.nrofDownlinkSymbols != 0 {
          if c.nrofDownlinkSymbols == allSymbols {
            if c.nrofUplinkSymbols == 0 {
              out := out[c.slotIndex := NoUplinkSymbols];
            } else {
              return -1, out;
            }
          } else {
            return -1, out;
          }
        } else if c.nrofUplinkSymbols != 0 {
          if c.nrofUplinkSymbols == allSymbols {
            out := out[c.slotIndex := AllUplinkSymbols];
          } else {
            return -1, out;
          }
        } else {
          return -1, out;
        }
      } else {
        return -1, out;
      }
      i := i + 1;
    }
    assert cs[..|cs|] == cs;
    return 0, out;
  }

  /** The last entry of `cs` naming slot `s`. */
  function LastNaming(cs: seq<DedicatedSlotConfig>, s: nat): (r: Option<nat>)
    ensures r.Some? ==> r.value < |cs| && cs[r.value].slotIndex == s
    ensures r.Some? ==> forall j :: r.value < j < |cs| ==> cs[j].slotIndex != s
    ensures r.None? ==> forall j :: 0 <= j < |cs| ==> cs[j].slotIndex != s
    decreases |cs|
  {
    if |cs| == 0 then None
    else if cs[|cs| - 1].slotIndex == s then Some(|cs| - 1)
    else LastNaming(cs[..|cs| - 1], s)
  }

  /** Each slot holds what the last entry naming it wrote, and slots no
      entry names keep their value. */
  lemma {:induction false} LastEntryWins(cs: seq<DedicatedSlotConfig>, uplink: seq<int>, s: nat)
    requires s < |uplink|
    ensures Written(cs, uplink)[s] ==
      match LastNaming(cs, s)
      case None => uplink[s]
      case Some(k) => DedicatedValue(cs[k])
    decreases |cs|
  {
    if |cs| > 0 {
      var front := cs[..|cs| - 1];
      LastEntryWins(front, uplink, s);
      if cs[|cs| - 1].slotIndex != s {
        var r := LastNaming(front, s);
        if r.Some? {
          assert cs[r.value] == front[r.value];
        }
      }
    }
  }

  /** An entry added to the list overrides its slot and nothing else. */
  lemma AddedEntryWins(cs: seq<DedicatedSlotConfig>, slotIndex: nat, dl: int, ul: int, uplink: seq<int>)
    requires slotIndex < |uplink|
    ensures var w := Written(AddDedicated(cs, slotIndex, dl, ul), uplink);
      && w[slotIndex] == DedicatedValue(DedicatedSlotConfig(slotIndex, dl, ul))
      && forall s :: 0 <= s < |uplink| && s != slotIndex ==> w[s] == Written(cs, uplink)[s]
  {
    var r := AddDedicated(cs, slotIndex, dl, ul);
    assert r[..|r| - 1] == cs;
  }

  /** The TDD state of `NR_DL_FRAME_PARMS`: whether a common configuration
      is held, the dedicated list, and the per-slot UL symbol table. */
  datatype PhyTddState = PhyTddState(hasCommon: bool, dedicated: seq<DedicatedSlotConfig>, uplink: seq<int>)

  /** `free_tdd_configuration_dedicated_nr`: the list is emptied. */
  function FreeTddConfigurationDedicated(st: PhyTddState): (r: PhyTddState)
    ensures r.dedicated == [] && r.hasCommon == st.hasCommon && r.uplink == st.uplink
  {
    st.(dedicated := [])
  }

  /** `free_tdd_configuration_nr`: both configurations are dropped and
      every slot of the table is set back to DL. */
  function FreeTddConfiguration(st: PhyTddState): (r: PhyTddState)
    ensures r.dedicated == [] && !r.hasCommon && |r.uplink| == |st.uplink|
    ensures forall s :: 0 <= s < |r.uplink| ==> r.uplink[s] == NoUplinkSymbols
  {
    PhyTddState(false, [], seq(|st.uplink|, _ => NoUplinkSymbols))
  }

  /** After a free, every slot is DL and adding a dedicated entry makes
      exactly its slot what the entry says. */
  lemma FreeThenAdd(st: PhyTddState, slotIndex: nat, dl: int, ul: int)
    requires slotIndex < |st.uplink|
    ensures var f := FreeTddConfiguration(st);
      var w := Written(AddDedicated(f.dedicated, slotIndex, dl, ul), f.uplink);
      && w[slotIndex] == DedicatedValue(DedicatedSlotConfig(slotIndex, dl, ul))
      && forall s :: 0 <= s < |w| && s != slotIndex ==> w[s] == NoUplinkSymbols
  {
    var f := FreeTddConfiguration(st);
    AddedEntryWins(f.dedicated, slotIndex, dl, ul, f.uplink);
  }

  // ---------------------------------------------------------------
  // do_tdd_config_sim
  // ---------------------------------------------------------------

  /** The DL and UL slot counts the simulator configures per numerology;
      other numerologies keep the zero counters. */
  function SimDlSlots(mu: nat): nat {
    if mu == 0 then 3 else if mu == 1 then 7 else if mu == 3 then 27 else 0
  }

  function SimUlSlots(mu: nat): nat {
    if mu == 0 then 1 else if mu == 1 then 2 else if mu == 3 then 12 else 0
  }

  /** Entry i after the three loops of `do_tdd_config_sim`, the UL loop
      starting at `ulStart`: DL slots first, then mixed slots of 6 DL and
      4 UL symbols up to `period - ul`, and the UL loop last, so it wins. */
  function SimEntry(dl: nat, ul: nat, ulStart: int, period: nat, i: nat, b: SlotBitmap): SlotBitmap {
    if ulStart <= i < period then SlotBitmap(TddUplink, 0, 0)
    else if dl <= i < period - ul then SlotBitmap(TddMixed, 6, 4)
    else if i < dl then SlotBitmap(TddDownlink, 0, 0)
    else b
  }

  /** The bitmap as the code writes it: the UL loop starts at the number
      of UL slots. */
  function SimBitmapAsWritten(dl: nat, ul: nat, period: nat, init: seq<SlotBitmap>): (bm: seq<SlotBitmap>)
    ensures |bm| == |init|
  {
    seq(|init|, i requires 0 <= i < |init| => SimEntry(dl, ul, ul, period, i, init[i]))
  }

  /** For 30 kHz subcarriers and a 5 ms period (10 slots, 7 DL and 2 UL),
      slot 2 ends up UL although it is one of the 7 DL slots: the UL loop
      overwrites slots 2 to 9. */
  lemma AsWrittenSimOverwritesDownlink(init: seq<SlotBitmap>)
    requires |init| >= 10
    ensures var bm := SimBitmapAsWritten(SimDlSlots(1), SimUlSlots(1), 10, init);
      2 < SimDlSlots(1) && bm[2].slotType == TddUplink
  {
  }

  /** The bitmap as intended: the UL loop starts `ul` slots before the end
      of the period. */
  function SimBitmap(dl: nat, ul: nat, period: nat, init: seq<SlotBitmap>): (bm: seq<SlotBitmap>)
    ensures |bm| == |init|
  {
    seq(|init|, i requires 0 <= i < |init| => SimEntry(dl, ul, period - ul, period, i, init[i]))
  }

  /** With the corrected loop, a period holding both groups starts with
      its `dl` DL slots and ends with its `ul` UL slots, mixed slots
      between. */
  lemma SimBitmapLayout(dl: nat, ul: nat, period: nat, init: seq<SlotBitmap>, i: nat)
    requires dl + ul <= period <= |init| && i < period
    ensures var t := SimBitmap(dl, ul, period, init)[i].slotType;
      && (t == TddDownlink <==> i < dl)
      && (t == TddUplink <==> period - ul <= i)
      && (t == TddMixed <==> dl <= i < period - ul)
  {
  }

  /** ... so the period has exactly `dl` DL slots and `ul` UL slots. */
  lemma SimBitmapCounts(dl: nat, ul: nat, period: nat, init: seq<SlotBitmap>)
    requires dl + ul <= period <= |init|
    ensures Count(FullDlSlots, SimBitmap(dl, ul, period, init)[..period]) == dl
    ensures Count(FullUlSlots, SimBitmap(dl, ul, period, init)[..period]) == ul
  {
    SimPrefixCounts(dl, ul, period, init, period);
  }

  lemma {:induction false} SimPrefixCounts(dl: nat, ul: nat, period: nat, init: seq<SlotBitmap>, n: nat)
    requires dl + ul <= period <= |init| && n <= period
    ensures Count(FullDlSlots, SimBitmap(dl, ul, period, init)[..n]) == Min(n, dl)
    ensures Count(FullUlSlots, SimBitmap(dl, ul, period, init)[..n]) == Max(0, n - (period - ul))
    decreases n
  {
    if n > 0 {
      var bm := SimBitmap(dl, ul, period, init);
      SimPrefixCounts(dl, ul, period, init, n - 1);
      assert bm[..n][..n - 1] == bm[..n - 1];
      assert bm[..n][n - 1] == bm[n - 1];
    }
  }

  /** `do_tdd_config_sim` as written: a TDD frame of `2^mu * 10` slots
      split into `periodsPerFrame` periods (the count
      `get_nb_periods_per_frame` derives from the configured period),
      whose bitmap comes from the UL loop starting at `num_ul_slots`.
      Every simulator setting has no more UL than DL slots, so a period
      is DL up to slot `ul` and UL from there, and its table always
      builds. `init` is the bitmap before the loops. */
  method DoTddConfigSim(mu: nat, periodsPerFrame: nat, init: seq<SlotBitmap>)
    returns (fs: FrameStructure, o: Outcome<seq<seq<int>>>)
    requires periodsPerFrame > 0 && Pow2(mu) * 10 / periodsPerFrame > 0
    requires |init| >= Max(Pow2(mu) * 10 / periodsPerFrame, SimDlSlots(mu))
    ensures fs.isTdd && fs.slotsPerFrame == Pow2(mu) * 10 && fs.periodsPerFrame == periodsPerFrame
    ensures fs.slotsPerPeriod == fs.slotsPerFrame / periodsPerFrame
    ensures fs.numDlSlots == SimDlSlots(mu) && fs.numUlSlots == SimUlSlots(mu)
    ensures fs.bitmap == SimBitmapAsWritten(SimDlSlots(mu), SimUlSlots(mu), fs.slotsPerPeriod, init)
    ensures forall i :: 0 <= i < fs.slotsPerPeriod ==>
      fs.bitmap[i].slotType == (if i < SimUlSlots(mu) then TddDownlink else TddUplink)
    ensures o.Ok? && |o.value| == fs.slotsPerFrame
    ensures forall s :: 0 <= s < fs.slotsPerFrame ==> o.value[s] == SlotSymbols(Entry(fs, s))
  {
    var slotsPerFrame := Pow2(mu) * 10;
    var period := slotsPerFrame / periodsPerFrame;
    var dl, ul := SimDlSlots(mu), SimUlSlots(mu);
    assert ul <= dl;
    fs := FrameStructure(true, slotsPerFrame, periodsPerFrame, period, dl, ul,
                         SimBitmapAsWritten(dl, ul, period, init));
    forall s | 0 <= s < slotsPerFrame
      ensures Configurable(Entry(fs, s))
    {
      assert SlotInPeriod(fs, s) < period;
    }
    o := SetTddConfig(fs);
  }

  /** `do_tdd_config_sim` with the corrected UL loop: a TDD frame of
      `2^mu * 10` slots split into `periodsPerFrame` periods (the count
      `get_nb_periods_per_frame` derives from the configured period),
      whose table always builds. `init` is the bitmap before the loops. */
  method DoTddConfigSimCorrected(mu: nat, periodsPerFrame: nat, init: seq<SlotBitmap>)
    returns (fs: FrameStructure, o: Outcome<seq<seq<int>>>)
    requires periodsPerFrame > 0 && Pow2(mu) * 10 / periodsPerFrame > 0
    requires |init| >= Max(Pow2(mu) * 10 / periodsPerFrame, SimDlSlots(mu))
    ensures fs.isTdd && fs.slotsPerFrame == Pow2(mu) * 10 && fs.periodsPerFrame == periodsPerFrame
    ensures fs.slotsPerPeriod == fs.slotsPerFrame / periodsPerFrame
    ensures fs.numDlSlots == SimDlSlots(mu) && fs.numUlSlots == SimUlSlots(mu)
    ensures fs.bitmap == SimBitmap(SimDlSlots(mu), SimUlSlots(mu), fs.slotsPerPeriod, init)
    ensures o.Ok? && |o.value| == fs.slotsPerFrame
    ensures forall s :: 0 <= s < fs.slotsPerFrame ==> o.value[s] == SlotSymbols(Entry(fs, s))
  {
    var slotsPerFrame := Pow2(mu) * 10;
    var period := slotsPerFrame / periodsPerFrame;
    var dl, ul := SimDlSlots(mu), SimUlSlots(mu);
    fs := FrameStructure(true, slotsPerFrame, periodsPerFrame, period, dl, ul,
                         SimBitmap(dl, ul, period, init));
    forall s | 0 <= s < slotsPerFrame
      ensures Configurable(Entry(fs, s))
    {
      assert SlotInPeriod(fs, s) < period;
    }
    o := SetTddConfig(fs);
  }
}
