/** The gNB broadcast-channel scheduling decisions: when the MIB is
    re-encoded, in which frames and slots SSBs go out, which SSB indices
    the burst bitmap enables, the RBs an SSB blocks in the VRB map, and
    the occasion test for other system information. */
module BchScheduler {
  import opened Common
  import opened Arithmetic
  import MacTables

  // ---------------------------------------------------------------
  // MIB
  // ---------------------------------------------------------------

  /** schedule_nr_mib re-encodes the MIB in slot 0 of every eighth frame,
    * and on the first call. */
  predicate MibDue(frame: nat, slot: nat, firstMib: bool)
  {
    (slot == 0 && frame % 8 == 0) || firstMib
  }

  /** The first frame at or after f whose slot 0 re-encodes the MIB. */
  function NextMibFrame(f: nat): nat
  {
    f + (8 - f % 8) % 8
  }

  /** After the first MIB, exactly one frame in every run of eight frames
    * re-encodes it: the next re-encoding lies within the run and no other
    * frame of the run, before or after it, re-encodes. */
  lemma MibEveryEightFrames(f: nat)
    ensures f <= NextMibFrame(f) < f + 8 && MibDue(NextMibFrame(f), 0, false)
    ensures forall k :: f <= k < NextMibFrame(f) ==> !MibDue(k, 0, false)
    ensures forall k :: NextMibFrame(f) < k < f + 8 ==> !MibDue(k, 0, false)
  {
    var m := f % 8;
    var q := f / 8;
    assert f == 8 * q + m;
    var next := if m == 0 then 8 * q else 8 * (q + 1);
    assert NextMibFrame(f) == next;
    forall k | f <= k < f + 8 && k != next
      ensures !MibDue(k, 0, false)
    {
      if k < 8 * (q + 1) {
        DivModUnique(k, 8, q, k - 8 * q);
      } else {
        DivModUnique(k, 8, q + 1, k - 8 * (q + 1));
      }
    }
  }

  /** The 24-bit payload read back from the encoded MIB: the first four
    * bytes of the buffer read as a little-endian 32-bit word, masked to
    * its low 24 bits. */
  function MibPayload(pdu: seq<Byte>): (r: nat)
    requires |pdu| >= 4
    ensures r < 0x100_0000
  {
    (pdu[0] as int + 0x100 * (pdu[1] as int) + 0x1_0000 * (pdu[2] as int) + 0x100_0000 * (pdu[3] as int)) % 0x100_0000
  }

  /** The payload carries exactly the three bytes encode_MIB_NR wrote,
    * first byte least significant; the fourth byte is dropped. */
  lemma MibPayloadBytes(pdu: seq<Byte>)
    requires |pdu| >= 4
    ensures MibPayload(pdu) % 0x100 == pdu[0]
    ensures (MibPayload(pdu) / 0x100) % 0x100 == pdu[1]
    ensures MibPayload(pdu) / 0x1_0000 == pdu[2]
  {
    var b0: int, b1: int, b2: int, b3: int := pdu[0], pdu[1], pdu[2], pdu[3];
    var low := b0 + 0x100 * b1 + 0x1_0000 * b2;
    DivModUnique(low + 0x100_0000 * b3, 0x100_0000, b3, low);
    DivModUnique(low, 0x100, b1 + 0x100 * b2, b0);
    DivModUnique(b1 + 0x100 * b2, 0x100, b2, b1);
    DivModUnique(low, 0x1_0000, b2, b0 + 0x100 * b1);
  }

  // ---------------------------------------------------------------
  // SSB periodicity
  // ---------------------------------------------------------------

  /** Every how many frames SSBs are generated, for
    * ssb-PeriodicityServingCell index p (5 ms * 2^p). */
  function SsbFramePeriodicity(p: nat): (r: nat)
    ensures r >= 1
  {
    if p > 1 then Pow2(p - 1) else 1
  }

  /** A frame and slot in which SSBs may be scheduled: a frame of the
    * period, and its first half unless the period is 5 ms. */
  predicate SsbSlot(frame: nat, slot: nat, p: nat, slotsPerFrame: nat)
  {
    frame % SsbFramePeriodicity(p) == 0 && (slot < slotsPerFrame / 2 || p == 0)
  }

  /** The slot an SSB start symbol is compared against: within the half
    * frame for the 5 ms period, else within the frame. */
  function RelSlot(slot: nat, p: nat, slotsPerFrame: nat): nat
    requires slotsPerFrame >= 2
  {
    if p == 0 then slot % (slotsPerFrame / 2) else slot
  }

  /** The SSB period in slots: 5 ms * 2^p, half a frame being 5 ms. */
  function SsbPeriodSlots(p: nat, slotsPerFrame: nat): nat
  {
    (slotsPerFrame / 2) * Pow2(p)
  }

  /** The frame periodicity is the SSB period in whole frames. */
  lemma FramePeriodicityIsPeriod(p: nat, slotsPerFrame: nat)
    requires 1 <= p && slotsPerFrame % 2 == 0
    ensures SsbPeriodSlots(p, slotsPerFrame) == SsbFramePeriodicity(p) * slotsPerFrame
  {
    var h := slotsPerFrame / 2;
    assert Pow2(p) == 2 * Pow2(p - 1);
    assert slotsPerFrame == 2 * h;
  }

  /** An SSB slot with relative slot r is exactly an absolute slot that
    * lies r slots into an SSB period. */
  lemma SsbSlotByAbsoluteSlot(frame: nat, slot: nat, p: nat, slotsPerFrame: nat, r: nat)
    requires slotsPerFrame >= 2 && slotsPerFrame % 2 == 0 && slot < slotsPerFrame && r < slotsPerFrame / 2
    ensures (SsbSlot(frame, slot, p, slotsPerFrame) && RelSlot(slot, p, slotsPerFrame) == r)
        <==> (frame * slotsPerFrame + slot) % SsbPeriodSlots(p, slotsPerFrame) == r
  {
    var n := slotsPerFrame;
    var h := n / 2;
    var t := frame * n + slot;
    if p == 0 {
      assert SsbPeriodSlots(p, n) == h;
      assert t == h * (2 * frame + slot / h) + slot % h;
      DivModUnique(t, h, 2 * frame + slot / h, slot % h);
    } else {
      HalfPeriodSlot(frame, slot, p, n, r);
    }
  }

  lemma HalfPeriodSlot(frame: nat, slot: nat, p: nat, n: nat, r: nat)
    requires 1 <= p && n >= 2 && n % 2 == 0 && slot < n && r < n / 2
    ensures (SsbSlot(frame, slot, p, n) && RelSlot(slot, p, n) == r)
        <==> (frame * n + slot) % SsbPeriodSlots(p, n) == r
  {
    var per := SsbFramePeriodicity(p);
    FramePeriodicityIsPeriod(p, n);
    var m := frame % per;
    InPeriodOffset(frame, slot, per, n);
    assert (frame * n + slot) % SsbPeriodSlots(p, n) == m * n + slot;
    if m >= 1 {
      MulAtLeast(m, n);
    }
  }

  /** Slot `slot` of frame `frame` lies (frame mod per) frames and `slot`
    * slots into a period of per frames. */
  lemma InPeriodOffset(frame: nat, slot: nat, per: nat, n: nat)
    requires per >= 1 && slot < n
    ensures (frame * n + slot) % (per * n) == (frame % per) * n + slot
  {
    var q, m := frame / per, frame % per;
    MulMonotone(m, per - 1, n);
    assert m * n + slot < per * n;
    assert frame == q * per + m;
    assert frame * n == q * (per * n) + m * n;
    DivModUnique(frame * n + slot, per * n, q, m * n + slot);
  }

  // ---------------------------------------------------------------
  // SSB positions in the burst
  // ---------------------------------------------------------------

  /** L_max for the ssb-PositionsInBurst choice: short, medium and long
    * bitmaps; any other choice is fatal. */
  function MaxSsbs(present: int): (r: Outcome<nat>)
    ensures r.Ok? <==> present in {1, 2, 3}
    ensures r.Ok? ==> r.value in {4, 8, 64}
  {
    if present == 1 then Ok(4) else if present == 2 then Ok(8) else if present == 3 then Ok(64) else Fatal
  }

  /** SSB i is in the burst when bit 7 - i % 8 of bitmap byte i / 8 is
    * set: the first SSB is the most significant bit. */
  predicate SsbInBurst(buf: seq<Byte>, i: nat)
    requires i / 8 < |buf|
  {
    BitSet(buf[i / 8], 7 - i % 8)
  }

  /** The bitmap bytes a set of SSB indices is sent as. */
  function BurstBytes(active: set<nat>, nBytes: nat): (buf: seq<Byte>)
    ensures |buf| == nBytes
  {
    seq(nBytes, j requires 0 <= j => BurstOctet(active, j))
  }

  /** The flags of SSBs 8j .. 8j + 7, least significant bit first. */
  function OctetFlags(active: set<nat>, j: nat): (flags: seq<nat>)
    ensures |flags| == 8 && IsBitVector(flags)
  {
    seq(8, b requires 0 <= b < 8 => if 8 * j + 7 - b in active then 1 else 0)
  }

  function BurstOctet(active: set<nat>, j: nat): (r: Byte)
  {
    var flags := OctetFlags(active, j);
    MacTables.PackValueBits(flags);
    assert Pow2(8) == 256;
    MacTables.PackValue(flags)
  }

  /** Reading back the bitmap gives back the set. */
  lemma BurstBytesRoundTrip(active: set<nat>, nBytes: nat, i: nat)
    requires i < 8 * nBytes
    ensures i / 8 < nBytes && (SsbInBurst(BurstBytes(active, nBytes), i) <==> i in active)
  {
    var j, k := i / 8, i % 8;
    assert i == 8 * j + k;
    DivBelow(i, nBytes, 8);
    var flags := OctetFlags(active, j);
    MacTables.PackValueBits(flags);
    assert flags[7 - k] == (if i in active then 1 else 0);
  }

  /** The indices i in [from, count) whose SSB is in the burst and starts
    * in relSlot; startSymbols[i] is get_ssb_start_symbol for SSB i. */
  function SsbsFrom(buf: seq<Byte>, startSymbols: seq<nat>, relSlot: nat, from: nat, count: nat): seq<nat>
    requires count <= 8 * |buf| && count <= |startSymbols|
    decreases count - from
  {
    if from >= count then []
    else
      assert from / 8 < |buf| by {
        DivBelow(from, |buf|, 8);
      }
      var rest := SsbsFrom(buf, startSymbols, relSlot, from + 1, count);
      if SsbInBurst(buf, from) && startSymbols[from] / 14 == relSlot then [from] + rest else rest
  }

  predicate Increasing(s: seq<nat>)
  {
    forall a, b :: 0 <= a < b < |s| ==> s[a] < s[b]
  }

  predicate ScheduledHere(buf: seq<Byte>, startSymbols: seq<nat>, relSlot: nat, count: nat, i: nat)
    requires count <= 8 * |buf| && count <= |startSymbols|
  {
    i < count && i / 8 < |buf| && SsbInBurst(buf, i) && startSymbols[i] / 14 == relSlot
  }

  /** The list holds, in increasing order, exactly the SSBs of the burst
    * that start in the slot. */
  lemma {:induction false} SsbsFromMembers(buf: seq<Byte>, startSymbols: seq<nat>, relSlot: nat, from: nat, count: nat)
    requires count <= 8 * |buf| && count <= |startSymbols|
    ensures var r := SsbsFrom(buf, startSymbols, relSlot, from, count);
      Increasing(r)
      && (forall k :: 0 <= k < |r| ==> from <= r[k])
      && (forall i :: i in r <==> from <= i && ScheduledHere(buf, startSymbols, relSlot, count, i))
    decreases count - from
  {
    if from < count {
      SsbsFromMembers(buf, startSymbols, relSlot, from + 1, count);
      DivBelow(from, |buf|, 8);
      var rest := SsbsFrom(buf, startSymbols, relSlot, from + 1, count);
      if ScheduledHere(buf, startSymbols, relSlot, count, from) {
        assert SsbsFrom(buf, startSymbols, relSlot, from, count) == [from] + rest;
        PrependIncreasing(from, rest);
      } else {
        assert SsbsFrom(buf, startSymbols, relSlot, from, count) == rest;
      }
    }
  }

  /** An index below every element of an increasing list keeps it
    * increasing when put in front. */
  lemma PrependIncreasing(x: nat, s: seq<nat>)
    requires Increasing(s) && forall k :: 0 <= k < |s| ==> x < s[k]
    ensures Increasing([x] + s)
  {
    var t := [x] + s;
    forall a, b | 0 <= a < b < |t|
      ensures t[a] < t[b]
    {
      if a > 0 {
        assert t[a] == s[a - 1] && t[b] == s[b - 1];
      } else {
        assert t[b] == s[b - 1];
      }
    }
  }

  /** The SSB indices schedule_nr_mib schedules in a frame and slot. */
  function ScheduledSsbs(frame: nat, slot: nat, p: nat, slotsPerFrame: nat, present: int,
                         buf: seq<Byte>, startSymbols: seq<nat>): (r: Outcome<seq<nat>>)
    requires slotsPerFrame >= 2
    requires present in {1, 2, 3} ==> MaxSsbs(present).value <= 8 * |buf| && MaxSsbs(present).value <= |startSymbols|
    ensures !SsbSlot(frame, slot, p, slotsPerFrame) ==> r == Ok([])
    ensures SsbSlot(frame, slot, p, slotsPerFrame) ==> (r.Fatal? <==> present !in {1, 2, 3})
  {
    if !SsbSlot(frame, slot, p, slotsPerFrame) then Ok([])
    else match MaxSsbs(present)
      case Fatal => Fatal
      case Ok(count) => Ok(SsbsFrom(buf, startSymbols, RelSlot(slot, p, slotsPerFrame), 0, count))
  }

  /** An SSB is scheduled iff the slot is an SSB slot, the SSB is in the
    * burst, and its start symbol lies in the relative slot. */
  lemma ScheduledSsbsExactly(frame: nat, slot: nat, p: nat, slotsPerFrame: nat, present: int,
                             buf: seq<Byte>, startSymbols: seq<nat>, i: nat)
    requires slotsPerFrame >= 2 && present in {1, 2, 3}
    requires MaxSsbs(present).value <= 8 * |buf| && MaxSsbs(present).value <= |startSymbols|
    ensures ScheduledSsbs(frame, slot, p, slotsPerFrame, present, buf, startSymbols).Ok?
    ensures var r := ScheduledSsbs(frame, slot, p, slotsPerFrame, present, buf, startSymbols).value;
      Increasing(r)
      && (i in r <==> SsbSlot(frame, slot, p, slotsPerFrame)
                      && ScheduledHere(buf, startSymbols, RelSlot(slot, p, slotsPerFrame), MaxSsbs(present).value, i))
  {
    SsbsFromMembers(buf, startSymbols, RelSlot(slot, p, slotsPerFrame), 0, MaxSsbs(present).value);
  }

  // ---------------------------------------------------------------
  // SSB VRB map
  // ---------------------------------------------------------------

  /** SL_to_bitmap(start, len): symbols start .. start + len - 1. */
  function SymbolBitmap(start: nat, len: nat): nat
  {
    var ones: nat := Pow2(len) - 1;
    ones * Pow2(start)
  }

  /** Flags of `start` zeros then `len` ones, least significant first. */
  function Run(start: nat, len: nat): (flags: seq<nat>)
    ensures |flags| == start + len && IsBitVector(flags)
    ensures forall q :: 0 <= q < start + len ==> (flags[q] == 1 <==> start <= q)
  {
    seq(start + len, q requires 0 <= q < start + len => if q >= start then 1 else 0)
  }

  lemma {:induction false} SymbolBitmapIsRun(start: nat, len: nat)
    ensures SymbolBitmap(start, len) == MacTables.PackValue(Run(start, len))
    decreases start
  {
    if start > 0 {
      SymbolBitmapIsRun(start - 1, len);
      RunTail(start, len);
      var ones: nat := Pow2(len) - 1;
      assert SymbolBitmap(start, len) == ones * (2 * Pow2(start - 1));
    } else {
      OnesValue(len);
    }
  }

  lemma RunTail(start: nat, len: nat)
    requires start > 0
    ensures Run(start, len)[0] == 0 && Run(start, len)[1..] == Run(start - 1, len)
  {
  }

  lemma {:induction false} OnesValue(len: nat)
    ensures MacTables.PackValue(Run(0, len)) == Pow2(len) - 1
    decreases len
  {
    if len > 0 {
      OnesValue(len - 1);
      assert Run(0, len)[1..] == Run(0, len - 1);
    }
  }

  /** The bitmap marks exactly the symbols of the run. */
  lemma SymbolBitmapBits(start: nat, len: nat, q: nat)
    ensures BitSet(SymbolBitmap(start, len), q) <==> start <= q < start + len
  {
    SymbolBitmapIsRun(start, len);
    var flags := Run(start, len);
    MacTables.PackValueBits(flags);
    if q >= start + len {
      var x := MacTables.PackValue(flags);
      assert x < Pow2(start + len);
      BitAboveWidth(x, start + len, q);
    }
  }

  /** A value below 2^w has no bit at or above w. */
  lemma BitAboveWidth(x: nat, w: nat, q: nat)
    requires x < Pow2(w) && w <= q
    ensures !BitSet(x, q)
  {
    PowMonotone(w, q);
    ModSmall(x, Pow2(q));
  }

  /** RBs an SSB occupies: 20, plus one when the subcarrier offset is
    * positive. */
  function SsbRbs(subcarrierOffset: int): nat
  {
    if subcarrierOffset > 0 then 21 else 20
  }

  /** fill_ssb_vrb_map: the SSB's RBs get the four symbols from its start
    * symbol within the slot; other entries are kept. */
  function FillSsbVrbMap(vrb: seq<nat>, rbStart: nat, subcarrierOffset: int, symStart: nat): (r: seq<nat>)
    requires rbStart + SsbRbs(subcarrierOffset) <= |vrb|
    ensures |r| == |vrb|
  {
    seq(|vrb|, rb requires 0 <= rb < |vrb| => SsbVrbEntry(vrb, rbStart, subcarrierOffset, symStart, rb))
  }

  function SsbVrbEntry(vrb: seq<nat>, rbStart: nat, subcarrierOffset: int, symStart: nat, rb: nat): nat
    requires rb < |vrb|
  {
    if rbStart <= rb < rbStart + SsbRbs(subcarrierOffset) then SymbolBitmap(symStart % 14, 4) else vrb[rb]
  }

  /** After the fill, an RB in the SSB marks symbol q iff q is one of
    * the SSB's four symbols; other RBs are unchanged. */
  lemma FillSsbVrbMapMarks(vrb: seq<nat>, rbStart: nat, subcarrierOffset: int, symStart: nat, rb: nat, q: nat)
    requires rbStart + SsbRbs(subcarrierOffset) <= |vrb| && rb < |vrb|
    ensures var r := FillSsbVrbMap(vrb, rbStart, subcarrierOffset, symStart);
      if rbStart <= rb < rbStart + SsbRbs(subcarrierOffset)
      then (BitSet(r[rb], q) <==> symStart % 14 <= q < symStart % 14 + 4)
      else r[rb] == vrb[rb]
  {
    SymbolBitmapBits(symStart % 14, 4, q);
  }

  // ---------------------------------------------------------------
  // Other system information occasions
  // ---------------------------------------------------------------

  const MaxFrameNumber := 1024

  /** test_other_sib_sched_occasion as written: true means "not this
    * frame and slot". The frame difference uses C's remainder, which is
    * negative when frame < relFrame. */
  function OtherSibSkipAsWritten(windowPos: nat, windowLen: nat, period: nat, slotsPerFrame: nat,
                                 frame: int, slot: int, relFrame: int, relSlot: int): bool
    requires slotsPerFrame > 0
  {
    var x := windowPos * windowLen;
    var t := 8 * Pow2(period);
    var testFrame := TruncMod(frame - relFrame, MaxFrameNumber);
    var siSlot := x % slotsPerFrame + relSlot;
    TruncMod(testFrame, t) != x / slotsPerFrame || siSlot != slot
  }

  /** The same test with the frame difference taken modulo the SFN
    * range, as a frame number is. */
  function OtherSibSkip(windowPos: nat, windowLen: nat, period: nat, slotsPerFrame: nat,
                        frame: int, slot: int, relFrame: int, relSlot: int): bool
    requires slotsPerFrame > 0
  {
    var x := windowPos * windowLen;
    var t := 8 * Pow2(period);
    var testFrame := (frame - relFrame) % MaxFrameNumber;
    var siSlot := x % slotsPerFrame + relSlot;
    testFrame % t != x / slotsPerFrame || siSlot != slot
  }

  /** The two agree unless the occasion's frame offset reaches back
    * across SFN 0. */
  lemma OtherSibAgreeWithoutWrap(windowPos: nat, windowLen: nat, period: nat, slotsPerFrame: nat,
                                 frame: int, slot: int, relFrame: int, relSlot: int)
    requires slotsPerFrame > 0 && frame >= relFrame
    ensures OtherSibSkipAsWritten(windowPos, windowLen, period, slotsPerFrame, frame, slot, relFrame, relSlot)
         == OtherSibSkip(windowPos, windowLen, period, slotsPerFrame, frame, slot, relFrame, relSlot)
  {
  }

  /** With the window inside the SI period (TS 38.331 section 5.2.2.3.2:
    * the window starts in the frame with SFN mod T == floor(x / N)), the
    * corrected test selects exactly the slot relSlot after the window
    * start slot, relFrame frames after a window-start frame. */
  lemma OtherSibOccasion(windowPos: nat, windowLen: nat, period: nat, slotsPerFrame: nat,
                         frame: int, slot: int, relFrame: int, relSlot: int)
    requires slotsPerFrame > 0 && period <= 7
    requires windowPos * windowLen / slotsPerFrame < 8 * Pow2(period)
    ensures var x := windowPos * windowLen;
      !OtherSibSkip(windowPos, windowLen, period, slotsPerFrame, frame, slot, relFrame, relSlot)
      <==> slot == x % slotsPerFrame + relSlot
           && (frame - relFrame - x / slotsPerFrame) % (8 * Pow2(period)) == 0
  {
    var x := windowPos * windowLen;
    var t := 8 * Pow2(period);
    var d := frame - relFrame;
    PeriodDividesSfnRange(period);
    var k := MaxFrameNumber / t;
    ModOfModMultiple(d, t, k);
    ModMatch(d, t, x / slotsPerFrame);
  }

  /** T = 8 << period divides the 1024 frame numbers. */
  lemma PeriodDividesSfnRange(period: nat)
    requires period <= 7
    ensures MaxFrameNumber % (8 * Pow2(period)) == 0 && MaxFrameNumber == (8 * Pow2(period)) * (MaxFrameNumber / (8 * Pow2(period)))
  {
    assert Pow2(1) == 2 && Pow2(2) == 4 && Pow2(3) == 8 && Pow2(4) == 16;
    assert Pow2(5) == 32 && Pow2(6) == 64 && Pow2(7) == 128;
  }

  /** Reducing modulo a multiple of t first does not change the
    * remainder modulo t. */
  lemma ModOfModMultiple(d: int, t: nat, k: nat)
    requires t > 0 && k > 0
    ensures (d % (t * k)) % t == d % t
  {
    var m := t * k;
    MulAtLeast(k, t);
    var q := d / m;
    var r := d % m;
    assert d == m * q + r;
    assert d == t * (k * q + r / t) + r % t;
    DivModUnique(d, t, k * q + r / t, r % t);
  }

  /** d % t == a for a remainder a exactly when d - a is a multiple of t. */
  lemma ModMatch(d: int, t: nat, a: nat)
    requires t > 0 && a < t
    ensures d % t == a <==> (d - a) % t == 0
  {
    var q := d / t;
    assert d == t * q + d % t;
    if d % t == a {
      DivModUnique(d - a, t, q, 0);
    }
    if (d - a) % t == 0 {
      var p := (d - a) / t;
      assert d == t * p + a;
      DivModUnique(d, t, p, a);
    }
  }

  /** The helper on its own: an occasion in SFN 0 one frame after a
    * window that started in the last frame of the previous SFN cycle,
    * with a 20-slot frame, an 8-frame period and the window in its
    * eighth frame, is missed by the code's test and taken by the
    * corrected one. The occasion lies past the end of its SI period,
    * which schedule_nr_other_sib never asks for (OtherSibCallerAgrees). */
  lemma AsWrittenMissesOccasionAtSfnWrap(windowPos: nat, windowLen: nat, period: nat, slotsPerFrame: nat)
    requires windowPos == 7 && windowLen == 20 && period == 0 && slotsPerFrame == 20
    ensures OtherSibSkipAsWritten(windowPos, windowLen, period, slotsPerFrame, 0, 0, 1, 0)
    ensures !OtherSibSkip(windowPos, windowLen, period, slotsPerFrame, 0, 0, 1, 0)
  {
    assert windowPos * windowLen == 140;
    assert 140 / 20 == 7 && 140 % 20 == 0;
    assert TruncMod(-1, MaxFrameNumber) == -1;
    assert TruncMod(-1, 8) == -1;
    assert (-1) % MaxFrameNumber == 1023 && 1023 % 8 == 7;
  }

  /** The frames an SI window of windowLen slots spans, rounded up, as
    * schedule_nr_other_sib computes window_length_f. */
  function WindowFrames(windowLen: nat, slotsPerFrame: nat): (f: nat)
    requires slotsPerFrame > 0
    ensures windowLen <= f * slotsPerFrame && (f - 1) * slotsPerFrame < windowLen + (if windowLen == 0 then 1 else 0)
  {
    var q, r := windowLen / slotsPerFrame, windowLen % slotsPerFrame;
    assert windowLen == q * slotsPerFrame + r;
    if r > 0 then
      assert (q + 1) * slotsPerFrame == q * slotsPerFrame + slotsPerFrame;
      q + 1
    else
      assert (q - 1) * slotsPerFrame == q * slotsPerFrame - slotsPerFrame;
      q
  }

  /** 2^(a + b) == 2^a * 2^b. */
  lemma {:induction false} Pow2Add(a: nat, b: nat)
    ensures Pow2(a + b) == Pow2(a) * Pow2(b)
    decreases a
  {
    if a > 0 {
      Pow2Add(a - 1, b);
      assert Pow2(a + b) == 2 * Pow2(a - 1 + b);
    }
  }

  /** The code's and the corrected test agree on an occasion whose window
    * starts at the beginning of the SI period, on one whose frame offset
    * x / N + relFrame stays inside the period, and on a window that
    * starts past the period (which neither test ever selects): C's
    * negative remainder only matters for an occasion that runs past the
    * end of its SI period. start is the window's first frame in the
    * period, x / N. */
  lemma OtherSibAgreeInsidePeriod(windowPos: nat, windowLen: nat, period: nat, slotsPerFrame: nat,
                                  frame: int, slot: int, relFrame: int, relSlot: int, start: int)
    requires slotsPerFrame > 0 && period <= 7 && start == windowPos * windowLen / slotsPerFrame
    requires 0 <= frame < MaxFrameNumber && 0 <= relFrame < MaxFrameNumber
    requires start == 0 || start + relFrame < 8 * Pow2(period) || start >= 8 * Pow2(period)
    ensures OtherSibSkipAsWritten(windowPos, windowLen, period, slotsPerFrame, frame, slot, relFrame, relSlot)
         == OtherSibSkip(windowPos, windowLen, period, slotsPerFrame, frame, slot, relFrame, relSlot)
  {
    PeriodDividesSfnRange(period);
    StartNonNegative(windowPos, windowLen, slotsPerFrame);
    FrameTestAgrees(frame - relFrame, 8 * Pow2(period), start);
  }

  /** A window's first frame is never negative. */
  lemma StartNonNegative(windowPos: nat, windowLen: nat, slotsPerFrame: nat)
    requires slotsPerFrame > 0
    ensures windowPos * windowLen / slotsPerFrame >= 0
  {
    MulMonotone(0, windowPos, windowLen);
  }

  /** The frame part of the occasion test: with a - the frame difference,
    * t a divisor of 1024 and start the window's first frame in the
    * period - C's remainders and the mathematical ones pick the same
    * frames unless a negative difference reaches past the period. */
  lemma FrameTestAgrees(a: int, t: nat, start: int)
    requires 0 < t && MaxFrameNumber % t == 0 && -MaxFrameNumber < a < MaxFrameNumber && start >= 0
    requires a >= 0 || start == 0 || start - a < t || start >= t
    ensures (TruncMod(TruncMod(a, MaxFrameNumber), t) == start) == ((a % MaxFrameNumber) % t == start)
  {
    if a < 0 {
      var d := -a;
      var k := MaxFrameNumber / t;
      assert MaxFrameNumber == t * k;
      assert TruncMod(a, MaxFrameNumber) == -d;
      assert TruncMod(-d, t) == -(d % t);
      DivModUnique(a, MaxFrameNumber, -1, MaxFrameNumber - d);
      ModOfModMultiple(a, t, k);
      if start == 0 {
        if d % t == 0 {
          DivModUnique(a, t, -(d / t), 0);
        }
        if a % t == 0 {
          DivModUnique(d, t, -(a / t), 0);
        }
      } else if start < t {
        ModSmall(d, t);
        DivModUnique(a, t, -1, t - d);
      }
    }
  }

  /** A window of w frames (a power of two dividing or exceeding the
    * period t = 8 << period) with index windowPos starts at the period
    * start, ends inside the period, or starts past it. */
  lemma WindowFitsPeriod(windowPos: nat, e: nat, period: nat, relFrame: nat)
    requires relFrame < Pow2(e)
    ensures var start, t := windowPos * Pow2(e), 8 * Pow2(period);
      start == 0 || start + relFrame < t || start >= t
  {
    Pow2Add(3, period);
    assert Pow2(3) == 8;
    if e >= period + 3 {
      PowMonotone(period + 3, e);
      LongWindowStart(windowPos, Pow2(e), 8 * Pow2(period));
    } else {
      var f: nat := period + 3 - e;
      Pow2Add(e, f);
      BlocksFit(windowPos, Pow2(e), Pow2(f), relFrame, 8 * Pow2(period));
    }
  }

  /** A window at least as long as the period starts at its start or
    * past its end. */
  lemma LongWindowStart(q: nat, w: nat, t: nat)
    requires 0 < t <= w
    ensures q * w == 0 || q * w >= t
  {
    if q > 0 {
      MulAtLeast(q, w);
    }
  }

  /** q blocks of w that start before r blocks end leave room for a
    * further b < w. */
  lemma BlocksFit(q: nat, w: nat, r: nat, b: nat, t: nat)
    requires b < w && t == w * r
    ensures q * w == 0 || q * w + b < t || q * w >= t
  {
    if q * w < t {
      if q >= r {
        MulMonotone(r, q, w);
        assert false;
      }
      MulMonotone(q + 1, r, w);
    }
  }

  /** A window of 5 << wlExp slots longer than a frame of 10 << mu slots
    * spans 2^(wlExp - mu - 1) whole frames. */
  lemma LongWindowFrames(wlExp: nat, mu: nat)
    requires wlExp > mu
    ensures 5 * Pow2(wlExp) == (10 * Pow2(mu)) * Pow2(wlExp - mu - 1)
    ensures WindowFrames(5 * Pow2(wlExp), 10 * Pow2(mu)) == Pow2(wlExp - mu - 1)
  {
    var e: nat := wlExp - mu - 1;
    var p, q := Pow2(mu), Pow2(e);
    Pow2Add(mu + 1, e);
    assert Pow2(mu + 1) == 2 * p;
    ScaledProduct(Pow2(wlExp), p, q);
    WholeFrames(5 * Pow2(wlExp), 10 * p, q);
  }

  lemma ScaledProduct(a: int, p: int, q: int)
    requires a == (2 * p) * q
    ensures 5 * a == (10 * p) * q
  {
  }

  /** A window of a whole number w of frames spans w frames. */
  lemma WholeFrames(wl: nat, n: nat, w: nat)
    requires n > 0 && wl == n * w
    ensures WindowFrames(wl, n) == w
  {
    DivModUnique(wl, n, w, 0);
  }

  /** For every window schedule_nr_other_sib can set up (5 << wlExp slots
    * for si-WindowLength s5 to s1280, 10 << mu slots per frame, the
    * occasion's frame offset inside the window as the AssertFatal on
    * temp_frame demands), the code's test is the corrected one: windows
    * and frames are powers of two times 5 slots, so an SI window that
    * starts inside its period ends inside it. */
  lemma OtherSibCallerAgrees(windowPos: nat, wlExp: nat, mu: nat, period: nat,
                             frame: int, slot: int, relFrame: int, relSlot: int)
    requires wlExp <= 8 && period <= 7 && 0 <= frame < MaxFrameNumber
    requires 0 <= relFrame < WindowFrames(5 * Pow2(wlExp), 10 * Pow2(mu))
    ensures OtherSibSkipAsWritten(windowPos, 5 * Pow2(wlExp), period, 10 * Pow2(mu), frame, slot, relFrame, relSlot)
         == OtherSibSkip(windowPos, 5 * Pow2(wlExp), period, 10 * Pow2(mu), frame, slot, relFrame, relSlot)
  {
    var start := windowPos * (5 * Pow2(wlExp)) / (10 * Pow2(mu));
    CallerWindowShape(windowPos, wlExp, mu, period, relFrame, start);
    AgreeByShape(windowPos, 5 * Pow2(wlExp), period, 10 * Pow2(mu), frame, slot, relFrame, relSlot, start);
  }

  /** The two agreement cases put together. */
  lemma AgreeByShape(windowPos: nat, windowLen: nat, period: nat, slotsPerFrame: nat,
                     frame: int, slot: int, relFrame: int, relSlot: int, start: int)
    requires slotsPerFrame > 0 && period <= 7 && start == windowPos * windowLen / slotsPerFrame
    requires 0 <= frame < MaxFrameNumber && 0 <= relFrame < MaxFrameNumber
    requires relFrame == 0 || start == 0 || start + relFrame < 8 * Pow2(period) || start >= 8 * Pow2(period)
    ensures OtherSibSkipAsWritten(windowPos, windowLen, period, slotsPerFrame, frame, slot, relFrame, relSlot)
         == OtherSibSkip(windowPos, windowLen, period, slotsPerFrame, frame, slot, relFrame, relSlot)
  {
    if relFrame == 0 {
      OtherSibAgreeWithoutWrap(windowPos, windowLen, period, slotsPerFrame, frame, slot, relFrame, relSlot);
    } else {
      OtherSibAgreeInsidePeriod(windowPos, windowLen, period, slotsPerFrame, frame, slot, relFrame, relSlot, start);
    }
  }

  /** What the agreement needs of the caller's window: a frame offset
    * inside the window is 0 for a window within one frame, and below
    * 1024; a longer window starts at the period start, ends inside the
    * period or starts past it. */
  lemma CallerWindowShape(windowPos: nat, wlExp: nat, mu: nat, period: nat, relFrame: int, start: int)
    requires wlExp <= 8 && 0 <= relFrame < WindowFrames(5 * Pow2(wlExp), 10 * Pow2(mu))
    requires start == windowPos * (5 * Pow2(wlExp)) / (10 * Pow2(mu))
    ensures relFrame < MaxFrameNumber
    ensures relFrame == 0 || start == 0 || start + relFrame < 8 * Pow2(period) || start >= 8 * Pow2(period)
  {
    if wlExp <= mu {
      ShortWindowFrames(wlExp, mu);
    } else {
      LongWindowShape(windowPos, wlExp, mu, period, relFrame, start);
    }
  }

  /** A window longer than a frame spans whole frames, so the caller's
    * frame offset stays below 1024 and the window fits its period. */
  lemma LongWindowShape(windowPos: nat, wlExp: nat, mu: nat, period: nat, relFrame: int, start: int)
    requires mu < wlExp <= 8 && 0 <= relFrame < WindowFrames(5 * Pow2(wlExp), 10 * Pow2(mu))
    requires start == windowPos * (5 * Pow2(wlExp)) / (10 * Pow2(mu))
    ensures relFrame < MaxFrameNumber
    ensures start == 0 || start + relFrame < 8 * Pow2(period) || start >= 8 * Pow2(period)
  {
    var e: nat := wlExp - mu - 1;
    LongWindowFrames(wlExp, mu);
    SmallPow(e);
    WindowStart(windowPos, 10 * Pow2(mu), Pow2(e));
    WindowFitsPeriod(windowPos, e, period, relFrame);
  }

  /** si-WindowLength s1280 spans at most 256 frames. */
  lemma SmallPow(e: nat)
    requires e <= 8
    ensures Pow2(e) <= 256
  {
    PowMonotone(e, 8);
    assert Pow2(8) == 256;
  }

  /** A window of 5 << wlExp slots no longer than half a frame of
    * 10 << mu slots is counted as one frame. */
  lemma ShortWindowFrames(wlExp: nat, mu: nat)
    requires wlExp <= mu
    ensures WindowFrames(5 * Pow2(wlExp), 10 * Pow2(mu)) == 1
  {
    PowMonotone(wlExp, mu);
    ModSmall(5 * Pow2(wlExp), 10 * Pow2(mu));
  }

  /** Window windowPos of w whole frames starts windowPos * w frames in. */
  lemma WindowStart(windowPos: nat, n: nat, w: nat)
    requires n > 0
    ensures windowPos * (n * w) / n == windowPos * w
  {
    assert windowPos * (n * w) == (windowPos * w) * n;
    DivModUnique(windowPos * (n * w), n, windowPos * w, 0);
  }
}
