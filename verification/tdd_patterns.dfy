/** The gNB MAC side of the TDD configuration: building the period
    bitmap from one or two RRC patterns, the slot counters kept next to
    it, and the UL slot lookups the scheduler uses. */
module TddPatterns {
  import opened Common
  import opened Arithmetic
  import opened TddFrame

  /** The fields of an RRC `TDD-UL-DL-Pattern` the bitmap is built from. */
  datatype Pattern = Pattern(dlSlots: nat, ulSlots: nat, dlSymbols: nat, ulSymbols: nat)

  /** DL or UL symbols make one mixed slot between the DL and UL slots. */
  predicate HasMixedSlot(p: Pattern) {
    p.dlSymbols + p.ulSymbols > 0
  }

  /** Slots the pattern spans. */
  function PatternSlots(p: Pattern): nat {
    p.dlSlots + p.ulSlots + (if HasMixedSlot(p) then 1 else 0)
  }

  /** The entry `set_tdd_bmap_period` leaves at slot `i` of the pattern
      when `b` was there before: full slots only get their type. */
  function PatternEntry(p: Pattern, i: nat, b: SlotBitmap): SlotBitmap {
    if i < p.dlSlots then b.(slotType := TddDownlink)
    else if i == p.dlSlots && HasMixedSlot(p) then SlotBitmap(TddMixed, p.dlSymbols, p.ulSymbols)
    else if p.ulSlots > 0 then b.(slotType := TddUplink)
    else b
  }

  /** `bs` is the pattern laid out over the entries `before`. */
  predicate LaidOut(p: Pattern, bs: seq<SlotBitmap>, before: seq<SlotBitmap>) {
    |bs| == |before| == PatternSlots(p)
    && forall i :: 0 <= i < |bs| ==> bs[i] == PatternEntry(p, i, before[i])
  }

  /** What the pattern adds to each tally: its full slots, and the mixed
      slot for the directions it has symbols of. */
  function PatternTally(t: Tally, p: Pattern): nat {
    match t
    case FullDlSlots => p.dlSlots
    case FullUlSlots => p.ulSlots
    case DlSlots => p.dlSlots + (if p.dlSymbols > 0 then 1 else 0)
    case UlSlots => p.ulSlots + (if p.ulSymbols > 0 then 1 else 0)
  }

  // ---------------------------------------------------------------
  // set_tdd_bmap_period
  // ---------------------------------------------------------------

  /** `set_tdd_bmap_period`: lays the pattern out from slot `start`,
      returns the number of slots it spans, and adds its DL and UL slots
      (a mixed slot counting for each direction it has symbols of) to the
      counters. */
  method SetTddBmapPeriod(p: Pattern, fs: FrameStructure, start: nat) returns (r: FrameStructure, total: nat)
    requires start + PatternSlots(p) <= |fs.bitmap|
    ensures total == PatternSlots(p)
    ensures r == fs.(numDlSlots := fs.numDlSlots + PatternTally(DlSlots, p),
                     numUlSlots := fs.numUlSlots + PatternTally(UlSlots, p),
                     bitmap := r.bitmap)
    ensures |r.bitmap| == |fs.bitmap|
    ensures LaidOut(p, r.bitmap[start..start + total], fs.bitmap[start..start + total])
    ensures forall j :: 0 <= j < |fs.bitmap| && !(start <= j < start + total) ==> r.bitmap[j] == fs.bitmap[j]
  {
    total := PatternSlots(p);
    var bm := fs.bitmap;
    var i := 0;
    while i < total
      invariant 0 <= i <= total && |bm| == |fs.bitmap|
      invariant forall j :: start <= j < start + i ==> bm[j] == PatternEntry(p, j - start, fs.bitmap[j])
      invariant forall j :: 0 <= j < |bm| && !(start <= j < start + i) ==> bm[j] == fs.bitmap[j]
    {
      var b := bm[start + i];
      if i < p.dlSlots {
        b := b.(slotType := TddDownlink);
      } else if i == p.dlSlots && HasMixedSlot(p) {
        b := SlotBitmap(TddMixed, p.dlSymbols, p.ulSymbols);
      } else if p.ulSlots > 0 {
        b := b.(slotType := TddUplink);
      }
      bm := bm[start + i := b];
      i := i + 1;
    }
    r := fs.(numDlSlots := fs.numDlSlots + PatternTally(DlSlots, p),
             numUlSlots := fs.numUlSlots + PatternTally(UlSlots, p),
             bitmap := bm);
    ghost var laid, before := bm[start..start + total], fs.bitmap[start..start + total];
    forall j | 0 <= j < total
      ensures laid[j] == PatternEntry(p, j, before[j])
    {
      assert laid[j] == bm[start + j] && before[j] == fs.bitmap[start + j];
    }
  }

  /** The tallies of the first n slots of a laid-out pattern. */
  function PrefixTally(t: Tally, p: Pattern, n: nat): nat {
    var dl := Min(n, p.dlSlots);
    var mixed := HasMixedSlot(p) && n > p.dlSlots;
    var ul := n - dl - (if mixed then 1 else 0);
    match t
    case FullDlSlots => dl
    case FullUlSlots => ul
    case DlSlots => dl + (if mixed && p.dlSymbols > 0 then 1 else 0)
    case UlSlots => ul + (if mixed && p.ulSymbols > 0 then 1 else 0)
  }

  lemma {:induction false} PrefixCounts(t: Tally, p: Pattern, bs: seq<SlotBitmap>, before: seq<SlotBitmap>, n: nat)
    requires LaidOut(p, bs, before) && n <= |bs|
    ensures Count(t, bs[..n]) == PrefixTally(t, p, n)
    decreases n
  {
    if n > 0 {
      PrefixCounts(t, p, bs, before, n - 1);
      assert bs[..n][..n - 1] == bs[..n - 1];
      assert bs[..n][n - 1] == PatternEntry(p, n - 1, before[n - 1]);
    }
  }

  /** A laid-out pattern holds exactly its DL slots, its UL slots and its
      mixed slot, and the counters grow by the slots carrying each
      direction. */
  lemma PatternCounts(t: Tally, p: Pattern, bs: seq<SlotBitmap>, before: seq<SlotBitmap>)
    requires LaidOut(p, bs, before)
    ensures Count(t, bs) == PatternTally(t, p)
  {
    PrefixCounts(t, p, bs, before, |bs|);
    assert bs[..|bs|] == bs;
  }

  // ---------------------------------------------------------------
  // config_tdd_patterns
  // ---------------------------------------------------------------

  function PatternsSlots(p1: Pattern, p2: Option<Pattern>): nat {
    PatternSlots(p1) + (if p2.Some? then PatternSlots(p2.value) else 0)
  }

  function PatternsTally(t: Tally, p1: Pattern, p2: Option<Pattern>): nat {
    PatternTally(t, p1) + (if p2.Some? then PatternTally(t, p2.value) else 0)
  }

  /** `bs` holds pattern 1 from slot 0 and pattern 2, when present, right
      after it, laid out over the entries `before`. */
  predicate PatternsLaidOut(p1: Pattern, p2: Option<Pattern>, bs: seq<SlotBitmap>, before: seq<SlotBitmap>) {
    var n1, total := PatternSlots(p1), PatternsSlots(p1, p2);
    && |bs| == |before| && total <= |bs|
    && LaidOut(p1, bs[..n1], before[..n1])
    && (p2.Some? ==> LaidOut(p2.value, bs[n1..total], before[n1..total]))
  }

  /** `config_tdd_patterns`: the counters are reset, the patterns are laid
      out one after the other, the rest of the bitmap is left alone, and
      the counters end up holding what the patterns add. */
  method ConfigTddPatterns(p1: Pattern, p2: Option<Pattern>, fs: FrameStructure) returns (r: FrameStructure)
    requires PatternsSlots(p1, p2) <= |fs.bitmap|
    ensures r == fs.(numDlSlots := PatternsTally(DlSlots, p1, p2),
                     numUlSlots := PatternsTally(UlSlots, p1, p2),
                     bitmap := r.bitmap)
    ensures PatternsLaidOut(p1, p2, r.bitmap, fs.bitmap)
    ensures forall j :: PatternsSlots(p1, p2) <= j < |fs.bitmap| ==> r.bitmap[j] == fs.bitmap[j]
  {
    var reset := fs.(numDlSlots := 0, numUlSlots := 0);
    var n1;
    r, n1 := SetTddBmapPeriod(p1, reset, 0);
    ghost var b1 := r.bitmap;
    assert b1[0..n1] == b1[..n1] && fs.bitmap[0..n1] == fs.bitmap[..n1];
    if p2.Some? {
      var n2;
      r, n2 := SetTddBmapPeriod(p2.value, r, n1);
      SecondPatternLaidOut(p1, p2.value, r.bitmap, b1, fs.bitmap);
    }
  }

  /** Laying pattern 2 out after pattern 1 keeps pattern 1 in place. */
  lemma SecondPatternLaidOut(p1: Pattern, p2: Pattern, b2: seq<SlotBitmap>, b1: seq<SlotBitmap>, before: seq<SlotBitmap>)
    requires var n1, total := PatternSlots(p1), PatternSlots(p1) + PatternSlots(p2);
      && |b2| == |b1| == |before| && total <= |b1|
      && LaidOut(p1, b1[..n1], before[..n1])
      && (forall j :: 0 <= j < |before| && !(0 <= j < n1) ==> b1[j] == before[j])
      && LaidOut(p2, b2[n1..total], b1[n1..total])
      && (forall j :: 0 <= j < |b1| && !(n1 <= j < total) ==> b2[j] == b1[j])
    ensures PatternsLaidOut(p1, Some(p2), b2, before)
  {
    var n1, total := PatternSlots(p1), PatternSlots(p1) + PatternSlots(p2);
    assert b2[..n1] == b1[..n1];
    assert b1[n1..total] == before[n1..total];
  }

  /** The tallies over the slots the patterns span are what they add. */
  lemma PatternsCounts(t: Tally, p1: Pattern, p2: Option<Pattern>, bs: seq<SlotBitmap>, before: seq<SlotBitmap>)
    requires PatternsLaidOut(p1, p2, bs, before)
    ensures Count(t, bs[..PatternsSlots(p1, p2)]) == PatternsTally(t, p1, p2)
  {
    var n1, total := PatternSlots(p1), PatternsSlots(p1, p2);
    assert bs[..total] == bs[..n1] + bs[n1..total];
    CountAppend(t, bs[..n1], bs[n1..total]);
    PatternCounts(t, p1, bs[..n1], before[..n1]);
    if p2.Some? {
      PatternCounts(t, p2.value, bs[n1..total], before[n1..total]);
    } else {
      assert bs[n1..total] == [];
    }
  }

  // ---------------------------------------------------------------
  // Slot counts and UL slot lookups
  // ---------------------------------------------------------------

  /** `get_dl_slots_per_period`. */
  function DlSlotsPerPeriod(fs: FrameStructure): int {
    if fs.isTdd then fs.numDlSlots else fs.slotsPerFrame
  }

  /** `get_ul_slots_per_period`. */
  function UlSlotsPerPeriod(fs: FrameStructure): int {
    if fs.isTdd then fs.numUlSlots else fs.slotsPerFrame
  }

  /** `get_full_ul_slots_per_period` and `get_full_dl_slots_per_period`,
      with the loop of the source. */
  method GetFullSlotsPerPeriod(fs: FrameStructure, t: Tally) returns (count: nat)
    requires PeriodShaped(fs) && (t == FullUlSlots || t == FullDlSlots)
    ensures !fs.isTdd ==> count == fs.slotsPerFrame
    ensures fs.isTdd ==> count == Count(t, fs.bitmap[..fs.slotsPerPeriod])
  {
    if !fs.isTdd {
      return fs.slotsPerFrame;
    }
    count := 0;
    var i := 0;
    while i < fs.slotsPerPeriod
      invariant 0 <= i <= fs.slotsPerPeriod
      invariant count == Count(t, fs.bitmap[..i])
    {
      assert fs.bitmap[..i + 1][..i] == fs.bitmap[..i];
      if (t == FullUlSlots && fs.bitmap[i].slotType == TddUplink)
         || (t == FullDlSlots && fs.bitmap[i].slotType == TddDownlink) {
        count := count + 1;
      }
      i := i + 1;
    }
  }

  /** `get_ul_slots_per_frame`. */
  function UlSlotsPerFrame(fs: FrameStructure): int {
    if fs.isTdd then fs.periodsPerFrame * UlSlotsPerPeriod(fs) else fs.slotsPerFrame
  }

  /** When the patterns make up the whole period, the counters that
      `config_tdd_patterns` leaves agree with the bitmap: the DL (resp.
      UL) count is the number of slots of the period carrying DL (resp.
      UL) symbols, and the full-slot counts are the patterns' full slots. */
  lemma CountersMatchBitmap(p1: Pattern, p2: Option<Pattern>, r: FrameStructure, before: seq<SlotBitmap>)
    requires PatternsLaidOut(p1, p2, r.bitmap, before)
    requires r.isTdd && r.slotsPerPeriod == PatternsSlots(p1, p2) > 0
    requires r.numDlSlots == PatternsTally(DlSlots, p1, p2) && r.numUlSlots == PatternsTally(UlSlots, p1, p2)
    ensures DlSlotsPerPeriod(r) == Count(DlSlots, r.bitmap[..r.slotsPerPeriod])
    ensures UlSlotsPerPeriod(r) == Count(UlSlots, r.bitmap[..r.slotsPerPeriod])
    ensures UlSlotsPerFrame(r) == r.periodsPerFrame * Count(UlSlots, r.bitmap[..r.slotsPerPeriod])
    ensures Count(FullDlSlots, r.bitmap[..r.slotsPerPeriod]) == p1.dlSlots + (if p2.Some? then p2.value.dlSlots else 0)
    ensures Count(FullUlSlots, r.bitmap[..r.slotsPerPeriod]) == p1.ulSlots + (if p2.Some? then p2.value.ulSlots else 0)
  {
    PatternsCounts(DlSlots, p1, p2, r.bitmap, before);
    PatternsCounts(UlSlots, p1, p2, r.bitmap, before);
    PatternsCounts(FullDlSlots, p1, p2, r.bitmap, before);
    PatternsCounts(FullUlSlots, p1, p2, r.bitmap, before);
  }

  /** The entries `get_first_ul_slot` and `get_ul_slot_offset` look for:
      full UL slots, and also mixed slots with UL symbols when `mixed`. */
  predicate UlEntry(mixed: bool, b: SlotBitmap) {
    (mixed && b.slotType == TddMixed && b.numUlSymbols != 0) || b.slotType == TddUplink
  }

  predicate UlCandidate(fs: FrameStructure, mixed: bool, i: nat)
    requires PeriodShaped(fs) && i < fs.slotsPerPeriod
  {
    UlEntry(mixed, fs.bitmap[i])
  }

  /** Within the period of a TDD frame, the candidate test is the test of
      the source: `is_ul_slot` when mixed slots count, or a full UL slot. */
  lemma UlCandidateIsSourceTest(fs: FrameStructure, mixed: bool, i: nat)
    requires PeriodShaped(fs) && fs.isTdd && i < fs.slotsPerPeriod
    ensures UlCandidate(fs, mixed, i) <==> (mixed && IsUlSlot(fs, i)) || fs.bitmap[i].slotType == TddUplink
  {
    ModSmall(i, fs.slotsPerPeriod);
  }

  /** `get_first_ul_slot`: the first candidate of the period, 0 under FDD
      or when there is none. */
  method GetFirstUlSlot(fs: FrameStructure, mixed: bool) returns (slot: nat)
    requires PeriodShaped(fs)
    ensures !fs.isTdd ==> slot == 0
    ensures fs.isTdd && (exists i :: 0 <= i < fs.slotsPerPeriod && UlCandidate(fs, mixed, i)) ==>
      slot < fs.slotsPerPeriod && UlCandidate(fs, mixed, slot)
      && forall i :: 0 <= i < slot ==> !UlCandidate(fs, mixed, i)
    ensures (forall i :: 0 <= i < fs.slotsPerPeriod ==> !UlCandidate(fs, mixed, i)) ==> slot == 0
  {
    if fs.isTdd {
      var i := 0;
      while i < fs.slotsPerPeriod
        invariant 0 <= i <= fs.slotsPerPeriod
        invariant forall j :: 0 <= j < i ==> !UlCandidate(fs, mixed, j)
      {
        if UlEntry(mixed, fs.bitmap[i]) {
          return i;
        }
        i := i + 1;
      }
    }
    return 0;
  }

  /** The candidates of the first n slots of the period, in order. */
  function UlSlotList(fs: FrameStructure, mixed: bool, n: nat): (u: seq<nat>)
    requires PeriodShaped(fs) && n <= fs.slotsPerPeriod
    ensures |u| <= n
  {
    if n == 0 then []
    else UlSlotList(fs, mixed, n - 1) + (if UlCandidate(fs, mixed, n - 1) then [n - 1] else [])
  }

  /** The list holds candidates below n only ... */
  lemma {:induction false} UlSlotListSound(fs: FrameStructure, mixed: bool, n: nat)
    requires PeriodShaped(fs) && n <= fs.slotsPerPeriod
    ensures forall k :: 0 <= k < |UlSlotList(fs, mixed, n)| ==>
      UlSlotList(fs, mixed, n)[k] < n && UlCandidate(fs, mixed, UlSlotList(fs, mixed, n)[k])
  {
    if n > 0 {
      UlSlotListSound(fs, mixed, n - 1);
      var front := UlSlotList(fs, mixed, n - 1);
      assert UlSlotList(fs, mixed, n)[..|front|] == front;
    }
  }

  /** ... in increasing order ... */
  lemma {:induction false} UlSlotListSorted(fs: FrameStructure, mixed: bool, n: nat)
    requires PeriodShaped(fs) && n <= fs.slotsPerPeriod
    ensures forall k, l :: 0 <= k < l < |UlSlotList(fs, mixed, n)| ==>
      UlSlotList(fs, mixed, n)[k] < UlSlotList(fs, mixed, n)[l]
  {
    if n > 0 {
      UlSlotListSorted(fs, mixed, n - 1);
      UlSlotListSound(fs, mixed, n - 1);
      var front := UlSlotList(fs, mixed, n - 1);
      assert UlSlotList(fs, mixed, n)[..|front|] == front;
    }
  }

  /** ... and every one of them. */
  lemma {:induction false} UlSlotListComplete(fs: FrameStructure, mixed: bool, n: nat)
    requires PeriodShaped(fs) && n <= fs.slotsPerPeriod
    ensures forall i :: 0 <= i < n && UlCandidate(fs, mixed, i) ==> i in UlSlotList(fs, mixed, n)
  {
    if n > 0 {
      UlSlotListComplete(fs, mixed, n - 1);
      var front := UlSlotList(fs, mixed, n - 1);
      var u := UlSlotList(fs, mixed, n);
      assert u[..|front|] == front;
      forall i | 0 <= i < n && UlCandidate(fs, mixed, i)
        ensures i in u
      {
        if i < n - 1 {
          var k :| 0 <= k < |front| && front[k] == i;
          assert u[k] == i;
        } else {
          assert u[|u| - 1] == i;
        }
      }
    }
  }

  /** One entry of the period's list: a candidate slot of the period. */
  lemma UlSlotListAt(fs: FrameStructure, mixed: bool, k: nat)
    requires PeriodShaped(fs) && k < |UlSlotList(fs, mixed, fs.slotsPerPeriod)|
    ensures var s := UlSlotList(fs, mixed, fs.slotsPerPeriod)[k];
      s < fs.slotsPerPeriod && UlCandidate(fs, mixed, s)
  {
    UlSlotListSound(fs, mixed, fs.slotsPerPeriod);
  }

  /** `get_ul_slot_offset`: the idx-th candidate slot counted over
      successive periods; the index itself under FDD. With no candidate in
      the period the source divides by zero. */
  function UlSlotOffset(fs: FrameStructure, idx: nat, mixed: bool): (o: Outcome<nat>)
    requires PeriodShaped(fs)
    ensures o.Fatal? <==> fs.isTdd && |UlSlotList(fs, mixed, fs.slotsPerPeriod)| == 0
  {
    if !fs.isTdd then Ok(idx)
    else
      var u := UlSlotList(fs, mixed, fs.slotsPerPeriod);
      if |u| == 0 then Fatal
      else Ok(PeriodOffset(u, idx, fs.slotsPerPeriod))
  }

  /** The idx-th entry of the list `u` of slots repeated every `p` slots. */
  function PeriodOffset(u: seq<nat>, idx: nat, p: nat): nat
    requires |u| > 0
  {
    u[idx % |u|] + (idx / |u|) * p
  }

  /** Over a sorted list of slots below `p`, the offsets increase. */
  lemma PeriodOffsetIncreasing(u: seq<nat>, i: nat, j: nat, p: nat)
    requires |u| > 0 && i < j
    requires forall k :: 0 <= k < |u| ==> u[k] < p
    requires forall k, l :: 0 <= k < l < |u| ==> u[k] < u[l]
    ensures PeriodOffset(u, i, p) < PeriodOffset(u, j, p)
  {
    var c := |u|;
    var ri, rj, qi, qj := i % c, j % c, i / c, j / c;
    DivModOrder(i, j, c);
    if qi < qj {
      EarlierPeriodBefore(u[ri], u[rj], qi, qj, p);
    }
  }

  /** The first loop of `get_ul_slot_offset`: the candidate slots of the
      period in increasing order. */
  method CollectUlSlots(fs: FrameStructure, mixed: bool) returns (ulSlotIdxs: seq<nat>)
    requires PeriodShaped(fs)
    ensures ulSlotIdxs == UlSlotList(fs, mixed, fs.slotsPerPeriod)
  {
    ulSlotIdxs := [];
    var i := 0;
    while i < fs.slotsPerPeriod
      invariant 0 <= i <= fs.slotsPerPeriod
      invariant ulSlotIdxs == UlSlotList(fs, mixed, i)
    {
      if UlEntry(mixed, fs.bitmap[i]) {
        ulSlotIdxs := ulSlotIdxs + [i];
      }
      i := i + 1;
    }
  }

  /** `get_ul_slot_offset`. */
  method GetUlSlotOffset(fs: FrameStructure, idx: nat, mixed: bool) returns (o: Outcome<nat>)
    requires PeriodShaped(fs)
    ensures o == UlSlotOffset(fs, idx, mixed)
  {
    if !fs.isTdd {
      return Ok(idx);
    }
    var ulSlotIdxs := CollectUlSlots(fs, mixed);
    var count := |ulSlotIdxs|;
    if count == 0 {
      return Fatal;
    }
    return Ok(PeriodOffset(ulSlotIdxs, idx, fs.slotsPerPeriod));
  }

  /** The offset always lands on a UL slot. */
  lemma UlSlotOffsetIsUl(fs: FrameStructure, idx: nat, mixed: bool)
    requires PeriodShaped(fs) && UlSlotOffset(fs, idx, mixed).Ok?
    ensures IsUlSlot(fs, UlSlotOffset(fs, idx, mixed).value)
  {
    if fs.isTdd {
      var u := UlSlotList(fs, mixed, fs.slotsPerPeriod);
      var p, k, q := fs.slotsPerPeriod, idx % |u|, idx / |u|;
      UlSlotListAt(fs, mixed, k);
      DivModUnique(u[k] + q * p, p, q, u[k]);
      assert UlSlotOffset(fs, idx, mixed).value == u[k] + q * p;
    }
  }

  /** Later indices get strictly later slots. */
  lemma UlSlotOffsetIncreasing(fs: FrameStructure, i: nat, j: nat, mixed: bool)
    requires PeriodShaped(fs) && UlSlotOffset(fs, i, mixed).Ok? && i < j
    ensures UlSlotOffset(fs, j, mixed).Ok?
    ensures UlSlotOffset(fs, i, mixed).value < UlSlotOffset(fs, j, mixed).value
  {
    if fs.isTdd {
      UlSlotListSound(fs, mixed, fs.slotsPerPeriod);
      UlSlotListSorted(fs, mixed, fs.slotsPerPeriod);
      PeriodOffsetIncreasing(UlSlotList(fs, mixed, fs.slotsPerPeriod), i, j, fs.slotsPerPeriod);
    }
  }
}
