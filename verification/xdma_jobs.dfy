/** The decoder side of the XDMA LDPC module: how the C code segments
    of a transport block are split into prepare jobs for the thread
    pool, the per-block buffer offsets, and the count of segments that
    decoded. */
module XdmaJobs {
  import opened Common
  import opened Arithmetic
  import XdmaOffload

  // ---------------------------------------------------------------
  // Prepare jobs
  // ---------------------------------------------------------------

  /** A prepare job: segments first .. first + span - 1. */
  datatype Job = Job(first: nat, span: nat)

  predicate InJob(j: Job, x: nat)
  {
    j.first <= x < j.first + j.span
  }

  /** The segments a new job takes when `remaining` segments are left
    * for `threadsLeft` jobs: the quotient, plus one for a remainder,
    * saturated at what is left. */
  function SegmentSpan(remaining: nat, threadsLeft: nat): (s: nat)
    requires threadsLeft > 0
    ensures s == CeilDiv(remaining, threadsLeft)
    ensures remaining > 0 ==> 1 <= s <= remaining
    ensures threadsLeft == 1 ==> s == remaining
  {
    var modulus := remaining % threadsLeft;
    var quotient := remaining / threadsLeft;
    var spanMax := if modulus == 0 then quotient else quotient + 1;
    SpanMaxIsCeil(remaining, threadsLeft);
    if remaining < spanMax then remaining else spanMax
  }

  lemma SpanMaxIsCeil(remaining: nat, k: nat)
    requires k > 0
    ensures (if remaining % k == 0 then remaining / k else remaining / k + 1) == CeilDiv(remaining, k)
    ensures CeilDiv(remaining, k) <= remaining || remaining == 0
    ensures k == 1 ==> CeilDiv(remaining, k) == remaining
  {
    QuotientRoundsUp(remaining, k);
    CeilAtMost(remaining, k);
  }

  lemma QuotientRoundsUp(remaining: nat, k: nat)
    requires k > 0
    ensures (if remaining % k == 0 then remaining / k else remaining / k + 1) == CeilDiv(remaining, k)
  {
    var q, m := remaining / k, remaining % k;
    if m == 0 {
      DivModUnique(remaining + k - 1, k, q, k - 1);
    } else {
      DivModUnique(remaining + k - 1, k, q + 1, m - 1);
    }
  }

  lemma CeilAtMost(remaining: nat, k: nat)
    requires k > 0
    ensures CeilDiv(remaining, k) <= remaining || remaining == 0
    ensures k == 1 ==> CeilDiv(remaining, k) == remaining
  {
    var s := CeilDiv(remaining, k);
    if s >= 2 {
      MulAtLeast(k, s - 1);
      assert (s - 1) * k >= s - 1;
    }
    if k == 1 {
      assert s * 1 == s && (s - 1) * 1 == s - 1;
    }
  }

  /** The number of jobs the first loop of decoder_xdma counts: one per
    * span, the divisor shrinking as jobs are added. */
  function JobCount(remaining: nat, used: nat, maxThreads: nat): nat
    requires used < maxThreads || remaining == 0
    decreases remaining
  {
    if remaining == 0 then 0
    else
      var s := SegmentSpan(remaining, maxThreads - used);
      1 + JobCount(remaining - s, used + 1, maxThreads)
  }

  /** With k threads left and at least k segments, a job leaves at
    * least one segment for each other thread. */
  lemma SpanLeavesEnough(remaining: nat, k: nat)
    requires 1 <= k <= remaining
    ensures remaining - CeilDiv(remaining, k) >= k - 1
  {
    var s := CeilDiv(remaining, k);
    if k == 1 {
      assert s * 1 == s && (s - 1) * 1 == s - 1;
    } else if s >= 2 {
      assert (s - 1) * k == (s - 1) + (s - 1) * (k - 1);
      MulAtLeast(s - 1, k - 1);
    }
  }

  /** The first loop counts min(C, num_threads_prepare_max) jobs, so the
    * divisor never reaches zero there. */
  lemma {:induction false} JobCountIsMin(remaining: nat, used: nat, maxThreads: nat)
    requires used < maxThreads || (remaining == 0 && used == maxThreads)
    ensures JobCount(remaining, used, maxThreads) == Min(remaining, maxThreads - used)
    decreases remaining
  {
    if remaining > 0 {
      var k := maxThreads - used;
      var s := SegmentSpan(remaining, k);
      JobCountIsMin(remaining - s, used + 1, maxThreads);
      if remaining >= k {
        SpanLeavesEnough(remaining, k);
      } else {
        assert s == 1 by {
          assert (remaining + k - 1) / k == 1 by {
            DivModUnique(remaining + k - 1, k, 1, remaining - 1);
          }
        }
      }
    }
  }

  /** The jobs started from segment r on, with `used` jobs already
    * started: each takes SegmentSpan of what is left. */
  function Plan(r: nat, c: nat, used: nat, maxThreads: nat): seq<Job>
    requires r <= c && (used < maxThreads || r == c)
    decreases c - r
  {
    if r == c then []
    else
      var s := SegmentSpan(c - r, maxThreads - used);
      [Job(r, s)] + Plan(r + s, c, used + 1, maxThreads)
  }

  lemma {:induction false} PlanLength(r: nat, c: nat, used: nat, maxThreads: nat)
    requires r <= c && (used < maxThreads || r == c)
    ensures |Plan(r, c, used, maxThreads)| == JobCount(c - r, used, maxThreads)
    decreases c - r
  {
    if r < c {
      var s := SegmentSpan(c - r, maxThreads - used);
      PlanLength(r + s, c, used + 1, maxThreads);
    }
  }

  /** The jobs tile [from, to): each starts where the previous one ends
    * and holds at least one segment. */
  predicate Tiles(jobs: seq<Job>, from: nat, to: nat)
    decreases |jobs|
  {
    if |jobs| == 0 then from == to
    else jobs[0].first == from && jobs[0].span >= 1 && from + jobs[0].span <= to
         && Tiles(jobs[1..], from + jobs[0].span, to)
  }

  lemma {:induction false} PlanTiles(r: nat, c: nat, used: nat, maxThreads: nat)
    requires r <= c && (used < maxThreads || r == c)
    ensures Tiles(Plan(r, c, used, maxThreads), r, c)
    decreases c - r
  {
    if r < c {
      var s := SegmentSpan(c - r, maxThreads - used);
      PlanTiles(r + s, c, used + 1, maxThreads);
      assert Plan(r, c, used, maxThreads)[1..] == Plan(r + s, c, used + 1, maxThreads);
    }
  }

  /** Every segment of [from, to) is in some job, and only those. */
  lemma {:induction false} TilesCover(jobs: seq<Job>, from: nat, to: nat, x: nat)
    requires Tiles(jobs, from, to)
    ensures from <= x < to <==> exists i :: 0 <= i < |jobs| && InJob(jobs[i], x)
    decreases |jobs|
  {
    if |jobs| > 0 {
      var rest := jobs[1..];
      TilesCover(rest, from + jobs[0].span, to, x);
      if exists i :: 0 <= i < |rest| && InJob(rest[i], x) {
        var i :| 0 <= i < |rest| && InJob(rest[i], x);
        assert InJob(jobs[i + 1], x);
      }
      if exists i :: 0 <= i < |jobs| && InJob(jobs[i], x) {
        var i :| 0 <= i < |jobs| && InJob(jobs[i], x);
        if i > 0 {
          assert InJob(rest[i - 1], x);
        }
      }
    }
  }

  /** A later job starts at or after the end of an earlier one. */
  lemma {:induction false} TilesOrdered(jobs: seq<Job>, from: nat, to: nat, i: nat, k: nat)
    requires Tiles(jobs, from, to) && i < k < |jobs|
    ensures jobs[i].first + jobs[i].span <= jobs[k].first
    decreases |jobs|
  {
    var rest := jobs[1..];
    if i > 0 {
      TilesOrdered(rest, from + jobs[0].span, to, i - 1, k - 1);
    } else {
      TilesStart(rest, from + jobs[0].span, to, k - 1);
    }
  }

  lemma {:induction false} TilesStart(jobs: seq<Job>, from: nat, to: nat, k: nat)
    requires Tiles(jobs, from, to) && k < |jobs|
    ensures from <= jobs[k].first
    decreases |jobs|
  {
    if k > 0 {
      TilesStart(jobs[1..], from + jobs[0].span, to, k - 1);
    }
  }

  /** No segment is in two jobs. */
  lemma TilesDisjoint(jobs: seq<Job>, from: nat, to: nat, i: nat, k: nat, x: nat)
    requires Tiles(jobs, from, to) && i < |jobs| && k < |jobs| && InJob(jobs[i], x) && InJob(jobs[k], x)
    ensures i == k
  {
    if i < k {
      TilesOrdered(jobs, from, to, i, k);
    } else if k < i {
      TilesOrdered(jobs, from, to, k, i);
    }
  }

  /** The second loop of decoder_xdma, walking the segments and starting
    * a job whenever the previous one is used up, with the divisor taken
    * from the jobs started so far (t_info.len) as in the first loop. */
  method PrepareJobs(c: nat, maxThreads: nat) returns (jobs: seq<Job>)
    requires maxThreads >= 1
    ensures jobs == Plan(0, c, 0, maxThreads)
    ensures Tiles(jobs, 0, c) && |jobs| == JobCount(c, 0, maxThreads) && |jobs| <= maxThreads
  {
    jobs := [];
    var remaining: nat := 0;
    var r: nat := 0;
    ghost var next: nat := 0;
    while r < c
      invariant r <= next && remaining == next - r
      invariant PlanSoFar(jobs, next, c, maxThreads)
    {
      if remaining == 0 {
        var s := SegmentSpan(c - r, maxThreads - |jobs|);
        PlanStep(jobs, r, c, maxThreads);
        jobs := jobs + [Job(r, s)];
        remaining := s;
        next := r + s;
      }
      remaining := remaining - 1;
      r := r + 1;
    }
    PlanFacts(c, maxThreads);
  }

  /** The whole plan tiles [0, C) with min(C, num_threads_prepare_max)
    * jobs. */
  lemma PlanFacts(c: nat, maxThreads: nat)
    requires maxThreads >= 1
    ensures var jobs := Plan(0, c, 0, maxThreads);
      Tiles(jobs, 0, c) && |jobs| == JobCount(c, 0, maxThreads) && |jobs| == Min(c, maxThreads)
  {
    PlanTiles(0, c, 0, maxThreads);
    PlanLength(0, c, 0, maxThreads);
    assert c - 0 == c;
    JobCountIsMin(c, 0, maxThreads);
  }

  /** The jobs started so far, followed by the plan from the next job's
    * first segment, are the whole plan. */
  predicate PlanSoFar(jobs: seq<Job>, next: nat, c: nat, maxThreads: nat)
  {
    maxThreads >= 1 && next <= c && (|jobs| < maxThreads || next == c)
    && jobs + Plan(next, c, |jobs|, maxThreads) == Plan(0, c, 0, maxThreads)
  }

  /** Starting the job at r moves it from the plan to the jobs. */
  lemma PlanStep(jobs: seq<Job>, r: nat, c: nat, maxThreads: nat)
    requires r < c && PlanSoFar(jobs, r, c, maxThreads)
    ensures PlanSoFar(jobs + [Job(r, SegmentSpan(c - r, maxThreads - |jobs|))],
                      r + SegmentSpan(c - r, maxThreads - |jobs|), c, maxThreads)
  {
    var s := SegmentSpan(c - r, maxThreads - |jobs|);
    var rest := Plan(r + s, c, |jobs| + 1, maxThreads);
    assert Plan(r, c, |jobs|, maxThreads) == [Job(r, s)] + rest;
    assert jobs + ([Job(r, s)] + rest) == (jobs + [Job(r, s)]) + rest;
  }

  /** The jobs the second loop starts as written: the divisor is
    * num_threads_prepare_max minus the final job count, the same for
    * every job. */
  function FixedPlan(r: nat, c: nat, k: nat): seq<Job>
    requires r <= c && k > 0
    decreases c - r
  {
    if r == c then [] else var s := SegmentSpan(c - r, k); [Job(r, s)] + FixedPlan(r + s, c, k)
  }

  /** decoder_xdma's job setup as written: a division by zero when the
    * divisor is 0, and the DevAssert on the job count when the second
    * loop starts a different number of jobs than the first counted. */
  function PrepareJobsAsWritten(c: nat, maxThreads: nat): Outcome<seq<Job>>
    requires maxThreads >= 1
  {
    JobCountIsMin(c, 0, maxThreads);
    var n := JobCount(c, 0, maxThreads);
    if c == 0 then Ok([])
    else if maxThreads - n == 0 then Fatal
    else
      var jobs := FixedPlan(0, c, maxThreads - n);
      if |jobs| != n then Fatal else Ok(jobs)
  }

  /** As written, the job setup fails whenever there are at least as
    * many segments as prepare threads. */
  lemma AsWrittenFailsWithManySegments(c: nat, maxThreads: nat)
    requires 1 <= maxThreads <= c
    ensures PrepareJobsAsWritten(c, maxThreads) == Fatal
  {
    JobCountIsMin(c, 0, maxThreads);
  }

  /** As written, five segments on eight threads give a divisor of 3 and
    * four jobs where the first loop counted five. */
  lemma AsWrittenMiscountsJobs()
    ensures PrepareJobsAsWritten(5, 8) == Fatal
    ensures JobCount(5, 0, 8) == 5
  {
    JobCountIsMin(5, 0, 8);
    FiveOnThree(5, 3);
  }

  lemma FiveOnThree(c: nat, k: nat)
    requires c == 5 && k == 3
    ensures |FixedPlan(0, c, k)| == 4
  {
    assert SegmentSpan(1, 3) == 1;
    assert |FixedPlan(4, 5, 3)| == 1;
    assert SegmentSpan(2, 3) == 1;
    assert |FixedPlan(3, 5, 3)| == 2;
    assert SegmentSpan(3, 3) == 1;
    assert |FixedPlan(2, 5, 3)| == 3;
    assert SegmentSpan(5, 3) == 2;
  }

  /** One job per segment from r on. */
  function Units(r: nat, c: nat): seq<Job>
    requires r <= c
    decreases c - r
  {
    if r == c then [] else [Job(r, 1)] + Units(r + 1, c)
  }

  lemma {:induction false} PlanUnits(r: nat, c: nat, maxThreads: nat)
    requires r <= c <= maxThreads
    ensures Plan(r, c, r, maxThreads) == Units(r, c)
    decreases c - r
  {
    if r < c {
      UnitSpan(c - r, maxThreads - r);
      PlanUnits(r + 1, c, maxThreads);
    }
  }

  lemma {:induction false} FixedUnits(r: nat, c: nat, k: nat)
    requires r <= c && c <= k && k >= 1
    ensures FixedPlan(r, c, k) == Units(r, c)
    decreases c - r
  {
    if r < c {
      UnitSpan(c - r, k);
      FixedUnits(r + 1, c, k);
    }
  }

  lemma UnitSpan(remaining: nat, k: nat)
    requires 1 <= remaining <= k
    ensures SegmentSpan(remaining, k) == 1
  {
    DivModUnique(remaining + k - 1, k, 1, remaining - 1);
  }

  lemma {:induction false} UnitsLength(r: nat, c: nat)
    requires r <= c
    ensures |Units(r, c)| == c - r
    decreases c - r
  {
    if r < c {
      UnitsLength(r + 1, c);
    }
  }

  /** As written, the setup is right when the segments fill at most half
    * of the prepare threads: every job then holds one segment. */
  lemma AsWrittenAgreesWithFewSegments(c: nat, maxThreads: nat)
    requires maxThreads >= 1 && 2 * c <= maxThreads
    ensures PrepareJobsAsWritten(c, maxThreads) == Ok(Plan(0, c, 0, maxThreads))
  {
    JobCountIsMin(c, 0, maxThreads);
    PlanUnits(0, c, maxThreads);
    if c > 0 {
      FixedUnits(0, c, maxThreads - c);
    }
    UnitsLength(0, c);
  }

  // ---------------------------------------------------------------
  // Code-block offsets
  // ---------------------------------------------------------------

  /** Kc, the columns of the base graph: 52 for base graph 2, else 68. */
  function GraphColumns(bg: int): nat
  {
    if bg == 2 then 52 else 68
  }

  /** The information columns: 22 for base graph 1, else 10. */
  function GraphInfoColumns(bg: int): nat
  {
    if bg == 1 then 22 else 10
  }

  /** The parity rows decoder_xdma configures: 46 for base graph 1, else
    * 42. */
  function GraphRows(bg: int): nat
  {
    if bg == 1 then 46 else 42
  }

  /** The input offset per block: Z * Kc LLRs of 8 bits. */
  function InputCbOffset(z: nat, bg: int): nat
  {
    XdmaOffload.CbOffset(z * GraphColumns(bg) * 8)
  }

  /** The output offset per block: Z * kb hard bits. */
  function OutputCbOffset(z: nat, bg: int): nat
  {
    XdmaOffload.CbOffset(z * GraphInfoColumns(bg))
  }

  /** decoder_xdma's offsets are those the offload recomputes from the
    * configuration it passes down, and each is a 16-byte-aligned slot
    * that holds one block. */
  lemma OffsetsAgreeWithOffload(z: nat, bg: int)
    requires bg in {1, 2}
    ensures var mb := XdmaOffload.DecoderColumns(bg, GraphRows(bg));
      InputCbOffset(z, bg) == XdmaOffload.DecoderInputCbOffset(z, mb)
      && OutputCbOffset(z, bg) == XdmaOffload.DecoderOutputCbOffset(z, mb, GraphRows(bg))
    ensures InputCbOffset(z, bg) % 16 == 0 && z * GraphColumns(bg) <= InputCbOffset(z, bg)
    ensures OutputCbOffset(z, bg) % 16 == 0 && z * GraphInfoColumns(bg) <= 8 * OutputCbOffset(z, bg)
  {
    XdmaOffload.CbOffsetRounds(z * GraphColumns(bg) * 8);
    XdmaOffload.CbOffsetRounds(z * GraphInfoColumns(bg));
  }

  // ---------------------------------------------------------------
  // Decoded segments
  // ---------------------------------------------------------------

  /** decodeSuccess of a segment: the iteration count is set to 2 on a
    * CRC pass and to the maximum plus one on a failure, then compared
    * with the maximum. */
  function SegmentDecoded(crcOk: bool, maxIterations: int): (ok: bool)
    ensures ok <==> crcOk && maxIterations >= 2
  {
    var iterations := if crcOk then 2 else maxIterations + 1;
    iterations <= maxIterations
  }

  /** The segments' results when segment r's CRC verdict is crcOk[r]. */
  function SegmentResults(crcOk: seq<bool>, maxIterations: int): (ok: seq<bool>)
    ensures |ok| == |crcOk|
  {
    seq(|crcOk|, r requires 0 <= r < |crcOk| => SegmentDecoded(crcOk[r], maxIterations))
  }

  /** As written, the CRC is checked on the start of the output buffer
    * for every segment, so each segment gets segment 0's verdict. */
  function SegmentResultsAsWritten(crcOk: seq<bool>, maxIterations: int): (ok: seq<bool>)
    ensures |ok| == |crcOk|
  {
    seq(|crcOk|, r requires 0 <= r < |crcOk| => SegmentDecoded(crcOk[0], maxIterations))
  }

  function CountTrue(s: seq<bool>): (n: nat)
    ensures n <= |s|
  {
    if |s| == 0 then 0 else CountTrue(s[..|s| - 1]) + (if s[|s| - 1] then 1 else 0)
  }

  /** The decode loop: processedSegments counts the segments whose
    * decodeSuccess is set. */
  method ProcessSegments(crcOk: seq<bool>, maxIterations: int) returns (success: seq<bool>, processed: nat)
    ensures success == SegmentResults(crcOk, maxIterations)
    ensures processed == CountTrue(success) && processed <= |crcOk|
  {
    success := [];
    processed := 0;
    var r := 0;
    while r < |crcOk|
      invariant r <= |crcOk| && |success| == r
      invariant forall i :: 0 <= i < r ==> success[i] == SegmentDecoded(crcOk[i], maxIterations)
      invariant processed == CountTrue(success)
    {
      var iterations := if crcOk[r] then 2 else maxIterations + 1;
      var decoded := iterations <= maxIterations;
      assert (success + [decoded])[..r] == success;
      success := success + [decoded];
      if decoded {
        processed := processed + 1;
      }
      r := r + 1;
    }
  }

  /** processedSegments is the number of segments whose CRC passed, or 0
    * when fewer than two iterations are allowed. */
  lemma {:induction false} ProcessedCountsCrcPasses(crcOk: seq<bool>, maxIterations: int)
    ensures CountTrue(SegmentResults(crcOk, maxIterations)) == (if maxIterations >= 2 then CountTrue(crcOk) else 0)
    decreases |crcOk|
  {
    if |crcOk| > 0 {
      var init := crcOk[..|crcOk| - 1];
      ProcessedCountsCrcPasses(init, maxIterations);
      assert SegmentResults(crcOk, maxIterations)[..|crcOk| - 1] == SegmentResults(init, maxIterations);
    }
  }

  /** As written, a corrupt segment after a good first segment counts as
    * decoded. */
  lemma AsWrittenTakesFirstSegmentCrc(crcOk: seq<bool>, maxIterations: int)
    requires |crcOk| >= 2 && crcOk[0] && !crcOk[1] && maxIterations >= 2
    ensures SegmentResultsAsWritten(crcOk, maxIterations)[1]
    ensures !SegmentResults(crcOk, maxIterations)[1]
  {
    assert SegmentResultsAsWritten(crcOk, maxIterations)[1] == SegmentDecoded(crcOk[0], maxIterations);
  }

  /** As written, either every segment decodes or none does. */
  lemma {:induction false} AsWrittenAllOrNothing(crcOk: seq<bool>, maxIterations: int)
    requires |crcOk| > 0
    ensures var n := CountTrue(SegmentResultsAsWritten(crcOk, maxIterations)); n == 0 || n == |crcOk|
  {
    AllSame(SegmentResultsAsWritten(crcOk, maxIterations), SegmentDecoded(crcOk[0], maxIterations));
  }

  lemma {:induction false} AllSame(s: seq<bool>, b: bool)
    requires forall i :: 0 <= i < |s| ==> s[i] == b
    ensures CountTrue(s) == (if b then |s| else 0)
    decreases |s|
  {
    if |s| > 0 {
      var init := s[..|s| - 1];
      assert forall i :: 0 <= i < |init| ==> init[i] == s[i];
      AllSame(init, b);
      assert s[|s| - 1] == b;
    }
  }
}
