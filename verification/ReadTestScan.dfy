/** Whole read-test scans: tiling, tallies that agree, and the file position. */
module ReadTestScan {
  import opened CopyTypes
  import opened VisThresholds
  import opened DefectList
  import opened ReadTest

  /** The scan after the given observations. */
  function Scan(size: int, start: int, end: int, os: seq<Observation>): Tally {
    if os == [] then Start(start, end)
    else Account(size, Scan(size, start, end, os[..|os| - 1]), os[|os| - 1])
  }

  /** The blocks reported so far, with how they were filed. */
  function Blocks(size: int, start: int, end: int, os: seq<Observation>): seq<Filed> {
    if os == [] then []
    else
      var n := |os| - 1;
      var t := Scan(size, start, end, os[..n]);
      Blocks(size, start, end, os[..n]) + [Filed(t.current, NextSectors(size, t), KindOf(size, os[n]))]
  }

  /** A range the procedure accepts, and no more blocks than it will do. */
  predicate InRange(size: int, start: int, end: int, os: seq<Observation>) {
    size > 0 && start < end && |os| <= Needed(size, end - start)
  }

  // ----- tiling -----

  lemma DivStep(x: int, m: int)
    requires x >= m > 0
    ensures (x - m) / m == x / m - 1 && (x - m) % m == x % m
  {
    var q, r := x / m, x % m;
    assert x - m == m * q - m + r;
    assert m * (q - 1) == m * q - m;
    DivIs(x - m, m, q - 1, r);
  }

  lemma DivIs(x: int, m: int, q: int, r: int)
    requires m > 0 && x == m * q + r && 0 <= r < m
    ensures x / m == q && x % m == r
  {
    var d := x / m - q;
    assert x == m * (x / m) + x % m;
    assert m * (x / m) == m * q + m * d;
    if d >= 1 { ProductAtLeast(m, d); }
    if d <= -1 { ProductAtMost(m, d); }
  }

  lemma ProductAtLeast(m: int, d: int)
    requires m > 0 && d >= 1
    ensures m * d >= m
  {
    if d > 1 { ProductAtLeast(m, d - 1); assert m * d == m * (d - 1) + m; }
  }

  lemma ProductAtMost(m: int, d: int)
    requires m > 0 && d <= -1
    ensures m * d <= -m
  {
    ProductAtLeast(m, -d);
    assert m * d == -(m * (-d));
  }

  lemma NeededStep(size: int, x: int)
    requires size > 0 && x > 0
    ensures var n := if x < size then x else size; Needed(size, x - n) == Needed(size, x) - 1
  {
    if x >= size {
      DivStep(x, size);
    } else {
      DivIs(x, size, 0, x);
      DivIs(0, size, 0, 0);
    }
  }

  lemma NeededZero(size: int, x: int)
    requires size > 0 && x >= 0
    ensures Needed(size, x) >= 0 && (Needed(size, x) == 0 <==> x == 0)
    decreases x
  {
    if x > 0 {
      NeededStep(size, x);
      NeededZero(size, x - if x < size then x else size);
    } else {
      DivIs(0, size, 0, 0);
    }
  }

  /** The position after any number of blocks: what is left is what is still needed. */
  lemma {:induction false} Position(size: int, start: int, end: int, os: seq<Observation>)
    requires InRange(size, start, end, os)
    ensures var t := Scan(size, start, end, os);
            && t.num == |os| && t.current + t.toProcess == end && 0 <= t.toProcess
            && Needed(size, t.toProcess) == Needed(size, end - start) - |os|
  {
    hide Update, KindOf, Tier;
    if os != [] {
      var rest := os[..|os| - 1];
      Position(size, start, end, rest);
      var t := Scan(size, start, end, rest);
      NeededZero(size, t.toProcess);
      NeededStep(size, t.toProcess);
    }
  }

  /** The reports tile the range: each block starts where the one before ended, the first at
      `start`; the scan reaches `end` exactly with the block that completes the progress. */
  lemma {:induction false} ScanTiles(size: int, start: int, end: int, os: seq<Observation>)
    requires InRange(size, start, end, os)
    ensures var b, t := Blocks(size, start, end, os), Scan(size, start, end, os);
            && |b| == |os| && Consecutive(b, start) && EndOf(b, start) == t.current <= end
            && (t.current == end <==> t.num == Needed(size, end - start))
  {
    hide Update, KindOf, Tier;
    Position(size, start, end, os);
    NeededZero(size, Scan(size, start, end, os).toProcess);
    if os != [] {
      var rest := os[..|os| - 1];
      ScanTiles(size, start, end, rest);
      Position(size, start, end, rest);
      NeededZero(size, Scan(size, start, end, rest).toProcess);
      assert Blocks(size, start, end, os)[..|os| - 1] == Blocks(size, start, end, rest);
    }
  }

  /** Every block but the last has full size, and a short one ends the scan. */
  lemma {:induction false} FullBlocks(size: int, start: int, end: int, os: seq<Observation>)
    requires InRange(size, start, end, os)
    ensures var b := Blocks(size, start, end, os);
            && |b| == |os|
            && (forall i | 0 <= i < |b| :: 0 < b[i].sectors <= size)
            && (forall i | 0 <= i < |b| && b[i].sectors < size ::
                  i == |b| - 1 && Scan(size, start, end, os).toProcess == 0)
  {
    hide Update, KindOf, Tier;
    if os != [] {
      var rest := os[..|os| - 1];
      FullBlocks(size, start, end, rest);
      Position(size, start, end, rest);
      NeededZero(size, Scan(size, start, end, rest).toProcess);
    }
  }

  // ----- the defect list of a scan -----

  lemma {:induction false} ScanLogs(size: int, start: int, end: int, os: seq<Observation>)
    ensures Scan(size, start, end, os).log == Log(Blocks(size, start, end, os))
  {
    hide Update, KindOf, Tier;
    if os != [] {
      ScanLogs(size, start, end, os[..|os| - 1]);
      assert Blocks(size, start, end, os)[..|Blocks(size, start, end, os)| - 1] ==
             Blocks(size, start, end, os[..|os| - 1]);
    }
  }

  /** What `first_error_lba` ends up as: a negative value is taken for none and replaced. */
  function RecordedFirst(blocks: seq<Filed>, kind: int): int {
    if blocks == [] then -1
    else
      var r := RecordedFirst(blocks[..|blocks| - 1], kind);
      if r < 0 && blocks[|blocks| - 1].kind == kind then blocks[|blocks| - 1].lba else r
  }

  lemma {:induction false} ScanEnds(size: int, start: int, end: int, os: seq<Observation>)
    ensures var t, b := Scan(size, start, end, os), Blocks(size, start, end, os);
            t.first == RecordedFirst(b, DAMAGED) && t.last == LastLba(b, DAMAGED, 0)
  {
    hide Update, Tier;
    if os != [] {
      ScanEnds(size, start, end, os[..|os| - 1]);
      var b := Blocks(size, start, end, os);
      assert b[..|b| - 1] == Blocks(size, start, end, os[..|os| - 1]);
    }
  }

  function KindCount(blocks: seq<Filed>, kind: int): nat {
    if blocks == [] then 0
    else KindCount(blocks[..|blocks| - 1], kind) + if blocks[|blocks| - 1].kind == kind then 1 else 0
  }

  /** The recorded address against the true first one. */
  lemma {:induction false} RecordedIs(blocks: seq<Filed>, from: int, kind: int)
    requires Consecutive(blocks, from)
    ensures var r, first, n := RecordedFirst(blocks, kind), FirstLba(blocks, kind), KindCount(blocks, kind);
            && (first.None? <==> n == 0) && (first.None? ==> r == -1)
            && (first.Some? ==>
                  && from <= first.value < EndOf(blocks, from)
                  && (if first.value >= 0 || n == 1 then r == first.value else first.value < r))
    ensures from <= EndOf(blocks, from)
  {
    if blocks != [] { RecordedIs(blocks[..|blocks| - 1], from, kind); }
  }

  /** The report's error range ends at the last end of the damaged intervals. It begins at their first
      begin if and only if there is none, that begin is not negative, or only one block is damaged; so
      it always does when the scan starts at a valid address. */
  lemma ErrorRange(size: int, start: int, end: int, os: seq<Observation>)
    requires InRange(size, start, end, os)
    ensures var t, b := Scan(size, start, end, os), Blocks(size, start, end, os);
            var first := FirstBegin(Final(b), DAMAGED);
            && t.last == LastEnd(Final(b), DAMAGED, 0)
            && (t.first == (if first.Some? then first.value else -1) <==>
                first.None? || first.value >= 0 || KindCount(b, DAMAGED) == 1)
            && (start >= 0 ==> first.None? || first.value >= 0)
  {
    var b := Blocks(size, start, end, os);
    ScanTiles(size, start, end, os);
    ScanEnds(size, start, end, os);
    LogEnds(b, start, DAMAGED, 0);
    RecordedIs(b, start, DAMAGED);
  }

  // ----- tallies kept separately agree -----

  function Sum(counts: seq<int>): int {
    if counts == [] then 0 else Sum(counts[..|counts| - 1]) + counts[|counts| - 1]
  }

  lemma {:induction false} SumBump(counts: seq<int>, i: nat)
    requires i < |counts|
    ensures Sum(Bump(counts, i)) == Sum(counts) + 1
  {
    var n, b := |counts| - 1, Bump(counts, i);
    if i == n {
      assert b[..n] == counts[..n];
    } else {
      SumBump(counts[..n], i);
      assert b[..n] == Bump(counts[..n], i);
    }
  }

  lemma {:induction false} SumZeros(n: nat)
    ensures Sum(Zeros(n)) == 0
  {
    if n > 0 {
      SumZeros(n - 1);
      assert Zeros(n)[..n - 1] == Zeros(n - 1);
    }
  }

  ghost predicate AllPlausible(os: seq<Observation>) {
    forall i | 0 <= i < |os| :: Plausible(os[i])
  }

  /** Every block is counted once: as an error of its status, or in its access-time tier. */
  lemma {:induction false} CountsAgree(size: int, start: int, end: int, os: seq<Observation>)
    requires size > 0 && AllPlausible(os)
    ensures var t := Scan(size, start, end, os);
            && |t.tiers| == TIERS + 1 && |t.statuses| == STATUSES && t.statuses[0] == 0
            && t.processed == |os| == t.errors + Sum(t.tiers) && t.errors == Sum(t.statuses)
  {
    hide Update, KindOf, Tier, Sum;
    if os == [] {
      SumZeros(TIERS + 1);
      SumZeros(STATUSES);
    } else {
      var n := |os| - 1;
      CountsAgree(size, start, end, os[..n]);
      var t := Scan(size, start, end, os[..n]);
      assert Plausible(os[n]);
      if os[n].status != 0 {
        SumBump(t.statuses, os[n].status);
      } else {
        TierExact(size, os[n].time, 0);
        SumBump(t.tiers, Tier(size, os[n].time));
      }
    }
  }

  /** An OK block whose access time lies between the limits around `i`. */
  predicate InTier(size: int, o: Observation, i: int)
    requires 0 <= i <= TIERS
  {
    && o.status == 0
    && (i == 0 || Thresholds(size)[i - 1] <= o.time)
    && (i == TIERS || o.time < Thresholds(size)[i])
  }

  function TierCount(size: int, os: seq<Observation>, i: int): nat
    requires 0 <= i <= TIERS
  {
    if os == [] then 0 else (if InTier(size, os[|os| - 1], i) then 1 else 0) + TierCount(size, os[..|os| - 1], i)
  }

  function StatusCount(os: seq<Observation>, status: int): nat {
    if os == [] then 0 else (if os[|os| - 1].status == status then 1 else 0) + StatusCount(os[..|os| - 1], status)
  }

  function TimeSum(os: seq<Observation>): int {
    if os == [] then 0 else TimeSum(os[..|os| - 1]) + os[|os| - 1].time
  }

  /** The histograms, counted over what the device did: each of the six time counters holds the OK blocks
      whose time lies between its limits, each error counter the blocks with its status; the totals are
      those of all blocks. */
  lemma {:induction false} HistogramsExact(size: int, start: int, end: int, os: seq<Observation>)
    requires size > 0 && AllPlausible(os)
    ensures var t := Scan(size, start, end, os);
            && |t.tiers| == 6 && (forall i | 0 <= i < 6 :: t.tiers[i] == TierCount(size, os, i))
            && |t.statuses| == 7 && t.statuses[0] == 0
            && (forall j | 1 <= j < 7 :: t.statuses[j] == StatusCount(os, j))
            && t.processed == |os| && t.errors == |os| - StatusCount(os, 0) && t.totalTime == TimeSum(os)
    decreases |os|
  {
    hide Update, KindOf, Tier, InTier;
    if os != [] {
      var n := |os| - 1;
      HistogramsExact(size, start, end, os[..n]);
      assert Plausible(os[n]);
      if os[n].status == 0 { TierExact(size, os[n].time, 0); }
      forall i | 0 <= i <= TIERS ensures InTier(size, os[n], i) <==> os[n].status == 0 && Tier(size, os[n].time) == i {
        InOneTier(size, os[n], i);
      }
    }
  }

  lemma InOneTier(size: int, o: Observation, i: nat)
    requires size > 0 && i <= TIERS
    ensures InTier(size, o, i) <==> o.status == 0 && Tier(size, o.time) == i
  {
    TierExact(size, o.time, i);
  }

  /** The top two tiers are the two slow kinds of the defect list. */
  lemma TierIsKind(size: int, o: Observation)
    requires size > 0 && o.status == 0
    ensures KindOf(size, o) == SEVERE <==> Tier(size, o.time) == TIERS
    ensures KindOf(size, o) == SLOW <==> Tier(size, o.time) == TIERS - 1
  {
    LimitsAscend(size);
    TierExact(size, o.time, TIERS);
    TierExact(size, o.time, TIERS - 1);
  }

  lemma {:induction false} TiersCountKinds(size: int, start: int, end: int, os: seq<Observation>)
    requires size > 0 && AllPlausible(os)
    ensures var t, b := Scan(size, start, end, os), Blocks(size, start, end, os);
            && |t.tiers| == TIERS + 1
            && t.tiers[TIERS] == KindCount(b, SEVERE) && t.tiers[TIERS - 1] == KindCount(b, SLOW)
            && t.errors == KindCount(b, DAMAGED)
  {
    hide Update, Tier;
    if os != [] {
      var n := |os| - 1;
      TiersCountKinds(size, start, end, os[..n]);
      var b := Blocks(size, start, end, os);
      assert b[..|b| - 1] == Blocks(size, start, end, os[..n]);
      if os[n].status == 0 {
        TierIsKind(size, os[n]);
        TierExact(size, os[n].time, 0);
      }
    }
  }

  /** Sectors of a kind are its blocks times the block size, less what a short last block lacks. */
  lemma {:induction false} SectorsOfKind(blocks: seq<Filed>, size: int, kind: int)
    requires forall i | 0 <= i < |blocks| - 1 :: blocks[i].sectors == size
    ensures FiledSectors(blocks, kind) == size * KindCount(blocks, kind)
            - (if blocks != [] && blocks[|blocks| - 1].kind == kind then size - blocks[|blocks| - 1].sectors else 0)
  {
    if blocks != [] {
      var n := |blocks| - 1;
      SectorsOfKind(blocks[..n], size, kind);
      assert n > 0 ==> blocks[..n][n - 1].sectors == size;
      assert size * (KindCount(blocks[..n], kind) + 1) == size * KindCount(blocks[..n], kind) + size;
    }
  }

  /** What a short last block of this kind lacks to a full one. */
  function Shortfall(size: int, blocks: seq<Filed>, kind: int): int {
    if blocks != [] && blocks[|blocks| - 1].kind == kind then size - blocks[|blocks| - 1].sectors else 0
  }

  /** The defect list and the histogram, kept independently, agree for every scan: the severe
      and slow sectors of the list are the top two tiers times the block size, and the damaged
      ones the error count times it, each up to one short block that ends the scan. */
  lemma ListMatchesHistogram(size: int, start: int, end: int, os: seq<Observation>)
    requires InRange(size, start, end, os) && AllPlausible(os)
    ensures var t, b := Scan(size, start, end, os), Blocks(size, start, end, os);
            && |t.tiers| == TIERS + 1
            && ListedSectors(Final(b), SEVERE) == size * t.tiers[TIERS] - Shortfall(size, b, SEVERE)
            && ListedSectors(Final(b), SLOW) == size * t.tiers[TIERS - 1] - Shortfall(size, b, SLOW)
            && ListedSectors(Final(b), DAMAGED) == size * t.errors - Shortfall(size, b, DAMAGED)
            && (t.toProcess > 0 ==> forall kind :: Shortfall(size, b, kind) == 0)
  {
    hide Update, Scan, Blocks, KindCount, ListedSectors, FiledSectors, Log;
    var b := Blocks(size, start, end, os);
    FullBlocks(size, start, end, os);
    TiersCountKinds(size, start, end, os);
    LogCounts(b, SEVERE);
    LogCounts(b, SLOW);
    LogCounts(b, DAMAGED);
    SectorsOfKind(b, size, SEVERE);
    SectorsOfKind(b, size, SLOW);
    SectorsOfKind(b, size, DAMAGED);
  }

  // ----- where a POSIX read really is -----

  /** The size of the last block that failed, 0 if none did. */
  function LastFailed(size: int, start: int, end: int, os: seq<Observation>): int {
    if os == [] then 0
    else
      var n := |os| - 1;
      if os[n].status != 0 then NextSectors(size, Scan(size, start, end, os[..n]))
      else LastFailed(size, start, end, os[..n])
  }

  lemma {:induction false} OffsetLags(size: int, start: int, end: int, os: seq<Observation>)
    ensures var t := Scan(size, start, end, os);
            t.offset == 512 * (t.current - LastFailed(size, start, end, os))
  {
    hide Update, KindOf, Tier;
    if os != [] { OffsetLags(size, start, end, os[..|os| - 1]); }
  }

  /** The file position belongs to the block about to be reported if and only if no read has
      failed yet: after a failure it stays one failed block behind. */
  lemma PositionIsReportedExactly(size: int, start: int, end: int, os: seq<Observation>)
    requires InRange(size, start, end, os)
    ensures Scan(size, start, end, os).offset == 512 * Scan(size, start, end, os).current
       <==> forall i | 0 <= i < |os| :: os[i].status == 0
    ensures |Blocks(size, start, end, os)| == |os|
    ensures forall i | 0 <= i < |os| && LastFailure(os, i) ::
              Scan(size, start, end, os).offset
              == 512 * (Scan(size, start, end, os).current - Blocks(size, start, end, os)[i].sectors)
  {
    OffsetLags(size, start, end, os);
    LastFailedZero(size, start, end, os);
    BlocksLength(size, start, end, os);
    forall i | 0 <= i < |os| && LastFailure(os, i)
      ensures LastFailed(size, start, end, os) == Blocks(size, start, end, os)[i].sectors
    {
      LastFailedIs(size, start, end, os, i);
    }
  }

  /** Block `i` failed and none after it. */
  ghost predicate LastFailure(os: seq<Observation>, i: int)
    requires 0 <= i < |os|
  {
    os[i].status != 0 && forall j | i < j < |os| :: os[j].status == 0
  }

  lemma {:induction false} BlocksLength(size: int, start: int, end: int, os: seq<Observation>)
    ensures |Blocks(size, start, end, os)| == |os|
  {
    if os != [] { BlocksLength(size, start, end, os[..|os| - 1]); }
  }

  lemma {:induction false} LastFailedIs(size: int, start: int, end: int, os: seq<Observation>, i: nat)
    requires i < |os| && LastFailure(os, i)
    ensures |Blocks(size, start, end, os)| == |os|
    ensures LastFailed(size, start, end, os) == Blocks(size, start, end, os)[i].sectors
    decreases |os|
  {
    hide Update, KindOf, Tier, Scan;
    BlocksLength(size, start, end, os);
    BlocksLength(size, start, end, os[..|os| - 1]);
    if i < |os| - 1 { LastFailedIs(size, start, end, os[..|os| - 1], i); }
  }

  lemma {:induction false} LastFailedZero(size: int, start: int, end: int, os: seq<Observation>)
    requires InRange(size, start, end, os)
    ensures LastFailed(size, start, end, os) == 0 <==> forall i | 0 <= i < |os| :: os[i].status == 0
  {
    hide Update, KindOf, Tier;
    if os != [] {
      var n := |os| - 1;
      LastFailedZero(size, start, end, os[..n]);
      Position(size, start, end, os[..n]);
      NeededZero(size, Scan(size, start, end, os[..n]).toProcess);
      assert os[n].status == 0 ==> forall i | 0 <= i < |os| :: i == n || os[i] == os[..n][i];
    }
  }

  // ----- the loop and the final counts -----

  /** The reports of a scan, as the loop hands them to the callback. */
  function ReportsOf(size: int, start: int, end: int, os: seq<Observation>): seq<Report> {
    if os == [] then []
    else
      var n := |os| - 1;
      var t := Scan(size, start, end, os[..n]);
      ReportsOf(size, start, end, os[..n]) + [Report(t.current, NextSectors(size, t), os[n].status, os[n].time)]
  }

  /** The reports name the scanned blocks in order, with what the device did; a block is filed as damaged
      when it failed, as severe or slow by the two highest limits, and as fine otherwise. */
  lemma {:induction false} ReportsOutright(size: int, start: int, end: int, os: seq<Observation>)
    requires size > 0
    ensures var r, b, limits := ReportsOf(size, start, end, os), Blocks(size, start, end, os), Thresholds(size);
            && |r| == |b| == |os| && |limits| == 5
            && forall i | 0 <= i < |os| ::
                 && r[i] == Report(b[i].lba, b[i].sectors, os[i].status, os[i].time)
                 && b[i].kind == (if os[i].status != 0 then 2
                                  else if os[i].time >= limits[4] then 1
                                  else if os[i].time >= limits[3] then 3
                                  else 0)
  {
    hide Update, Tier, Scan;
    if os != [] {
      var n := |os| - 1;
      ReportsOutright(size, start, end, os[..n]);
      assert forall i | 0 <= i < n :: os[..n][i] == os[i];
    }
  }

  /** `dc_procedure_perform_loop` over the read test: it performs exactly as many blocks as the
      range needs, or stops earlier when it is interrupted (the observations run out). */
  method ScanLoop(p: Procedure, start: int, end: int, os: seq<Observation>) returns (reports: seq<Report>)
    requires p.Valid() && start < end && p.Abs() == Start(start, end) && p.den == Needed(p.size, end - start)
    requires AllPlausible(os)
    modifies p, p.tiers, p.statuses, p.log
    ensures p.Valid() && |reports| == if |os| < p.den then |os| else p.den
    ensures p.Abs() == Scan(p.size, start, end, os[..|reports|]) && p.den == old(p.den)
    ensures reports == ReportsOf(p.size, start, end, os[..|reports|])
  {
    hide Update, Account, KindOf;
    reports := [];
    var i := 0;
    NeededZero(p.size, end - start);
    while i < |os| && p.num < p.den
      invariant 0 <= i <= |os| && i <= p.den && |reports| == i
      invariant p.Valid() && p.den == old(p.den) && p.num == i
      invariant p.Abs() == Scan(p.size, start, end, os[..i])
      invariant reports == ReportsOf(p.size, start, end, os[..i])
    {
      ghost var t := p.Abs();
      p.Perform(os[i]);
      reports := reports + [p.report];
      ScanNext(p.size, start, end, os, i);
      i := i + 1;
    }
  }

  lemma ScanNext(size: int, start: int, end: int, os: seq<Observation>, i: nat)
    requires i < |os|
    ensures var t := Scan(size, start, end, os[..i]);
            && Scan(size, start, end, os[..i + 1]) == Account(size, t, os[i])
            && Account(size, t, os[i]).num == t.num + 1
            && ReportsOf(size, start, end, os[..i + 1]) ==
               ReportsOf(size, start, end, os[..i]) +
                   [Report(t.current, NextSectors(size, t), os[i].status, os[i].time)]
  {
    hide Update, KindOf;
    assert os[..i + 1][..i] == os[..i];
  }

  /** The sector counts of `write_dg_report`, after its flush of the open interval. */
  method CountSectors(log: DefectLog) returns (counts: array<int>)
    requires DefectKinds(All(log.Abs()))
    modifies log
    ensures log.Abs() == Intervals(All(old(log.Abs())), None)
    ensures fresh(counts) && counts.Length == 4
    ensures forall kind | SEVERE <= kind <= SLOW :: counts[kind] == ListedSectors(All(old(log.Abs())), kind)
  {
    ghost var list := All(log.Abs());
    if log.curKind != FINE {
      log.DgIntervalUpdate(0, -1, FINE);
    }
    assert log.intervals == list;
    counts := new int[4](_ => 0);
    var i := 0;
    while i < |log.intervals|
      invariant 0 <= i <= |list| && log.intervals == list && log.Abs() == Intervals(list, None)
      invariant forall kind | SEVERE <= kind <= SLOW :: counts[kind] == ListedSectors(list[..i], kind)
    {
      var interval := log.intervals[i];
      counts[interval.kind] := counts[interval.kind] + (interval.end - interval.begin + 1);
      assert list[..i + 1][..i] == list[..i];
      i := i + 1;
    }
    assert list[..i] == list;
  }

  /** Blocks are filed under the four kinds, so the list holds the three that are defects. */
  lemma {:induction false} ScanKinds(size: int, start: int, end: int, os: seq<Observation>)
    ensures DefectKinds(Final(Blocks(size, start, end, os)))
  {
    hide Tier, Update, Scan;
    if os != [] {
      var n := |os| - 1;
      var b, rest := Blocks(size, start, end, os), Blocks(size, start, end, os[..n]);
      ScanKinds(size, start, end, os[..n]);
      assert b[..|b| - 1] == rest;
      assert b[|rest|].kind == KindOf(size, os[n]);
      UpdateKinds(Log(rest), b[|rest|]);
    } else {
      NothingLogged();
    }
  }

  /** A whole test and the sector counts of its report: they are the sectors of the scanned blocks of
      each kind. */
  method TestAndCount(p: Procedure, start: int, end: int, os: seq<Observation>)
    returns (reports: seq<Report>, counts: array<int>)
    requires p.Valid() && start < end && p.Abs() == Start(start, end) && p.den == Needed(p.size, end - start)
    requires AllPlausible(os)
    modifies p, p.tiers, p.statuses, p.log
    ensures |reports| == if |os| < old(p.den) then |os| else old(p.den)
    ensures var b := Blocks(p.size, start, end, os[..|reports|]);
            && p.log.Abs() == Intervals(Final(b), None)
            && counts.Length == 4 && forall kind | SEVERE <= kind <= SLOW :: counts[kind] == FiledSectors(b, kind)
  {
    hide Log, Update, Scan, Blocks, ListedSectors, FiledSectors;
    reports := ScanLoop(p, start, end, os);
    ghost var done := os[..|reports|];
    ghost var b := Blocks(p.size, start, end, done);
    ScanLogs(p.size, start, end, done);
    ScanKinds(p.size, start, end, done);
    assert All(p.log.Abs()) == Final(b);
    counts := CountSectors(p.log);
    forall kind | SEVERE <= kind <= SLOW ensures counts[kind] == FiledSectors(b, kind) { LogCounts(b, kind); }
  }
}
