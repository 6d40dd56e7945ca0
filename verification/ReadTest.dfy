/** The read test: what one block adds to the report, and whole scans. */
module ReadTest {
  import opened CopyTypes
  import opened VisThresholds
  import opened DefectList

  const STATUSES := 7

  /** What the device does with one block: block status (0 is OK, up to 6) and access time. */
  datatype Observation = Observation(status: nat, time: int)

  predicate Plausible(o: Observation) {
    o.status < STATUSES
  }

  /** The report accumulators, the scan position and, for POSIX reads, the file offset. */
  datatype Tally = Tally(processed: int, errors: int, tiers: seq<int>, statuses: seq<int>,
                         first: int, last: int, totalTime: int, log: Intervals,
                         current: int, toProcess: int, num: int, offset: int)

  function Zeros(n: nat): seq<int> {
    seq(n, _ => 0)
  }

  function Start(start: int, end: int): Tally {
    Tally(0, 0, Zeros(TIERS + 1), Zeros(STATUSES), -1, 0, 0, Intervals([], None), start, end - start, 0, 512 * start)
  }

  function NextSectors(size: int, t: Tally): int {
    if t.toProcess < size then t.toProcess else size
  }

  function KindOf(size: int, o: Observation): int {
    var limits := Thresholds(size);
    if o.status != 0 then DAMAGED
    else if o.time >= limits[TIERS - 1] then SEVERE
    else if o.time >= limits[TIERS - 2] then SLOW
    else FINE
  }

  function Bump(counts: seq<int>, i: nat): (r: seq<int>)
    ensures |r| == |counts|
  {
    if i < |counts| then counts[i := counts[i] + 1] else counts
  }

  /** One block of the scan. */
  function Account(size: int, t: Tally, o: Observation): Tally {
    var n := NextSectors(size, t);
    var bad := o.status != 0;
    Tally(t.processed + 1,
          if bad then t.errors + 1 else t.errors,
          if bad then t.tiers else Bump(t.tiers, Tier(size, o.time)),
          if bad then Bump(t.statuses, o.status) else t.statuses,
          if bad && t.first < 0 then t.current else t.first,
          if bad then t.current + n - 1 else t.last,
          t.totalTime + o.time,
          Update(t.log, t.current, t.current + n - 1, KindOf(size, o)),
          t.current + n, t.toProcess - n, t.num + 1,
          if bad then 512 * t.current else t.offset + 512 * n)
  }

  lemma AccountIs(size: int, t: Tally, o: Observation, next: Tally)
    requires var n := NextSectors(size, t);
             && next.processed == t.processed + 1 && next.totalTime == t.totalTime + o.time
             && next.log == Update(t.log, t.current, t.current + n - 1, KindOf(size, o))
             && next.current == t.current + n && next.toProcess == t.toProcess - n && next.num == t.num + 1
             && if o.status != 0
                then next.errors == t.errors + 1 && next.tiers == t.tiers && next.statuses == Bump(t.statuses, o.status)
                     && next.first == (if t.first < 0 then t.current else t.first) && next.last == t.current + n - 1
                     && next.offset == 512 * t.current
                else next.errors == t.errors
                     && next.tiers == Bump(t.tiers, Tier(size, o.time)) && next.statuses == t.statuses
                     && next.first == t.first && next.last == t.last && next.offset == t.offset + 512 * n
    ensures next == Account(size, t, o)
  {
    hide Update, Bump, Tier, KindOf;
  }

  datatype Report = Report(lba: int, sectors: int, status: nat, time: int)

  class Procedure {
    const size: int         // sectors_at_once
    const limits: array<int>
    const tiers: array<int>
    const statuses: array<int>
    const log: DefectLog
    var processed: int
    var errors: int
    var first: int
    var last: int
    var totalTime: int
    var current: int
    var toProcess: int
    var num: int
    var den: int
    var offset: int
    var report: Report

    ghost predicate Valid()
      reads this, limits, tiers, statuses
    {
      && size > 0 && limits.Length == TIERS && tiers.Length == TIERS + 1 && statuses.Length == STATUSES
      && limits != tiers && limits != statuses && tiers != statuses
      && limits[..] == Thresholds(size)
    }

    ghost function Abs(): Tally
      reads this, tiers, statuses, log
    {
      Tally(processed, errors, tiers[..], statuses[..], first, last, totalTime, log.Abs(),
            current, toProcess, num, offset)
    }

    /** The private data as the framework hands it to `Open`: all zero, options filled in. */
    constructor (size: int)
      ensures this.size == size && fresh(limits) && fresh(tiers) && fresh(statuses) && fresh(log)
      ensures limits.Length == TIERS && limits != tiers && limits != statuses && tiers != statuses
      ensures tiers[..] == Zeros(TIERS + 1) && statuses[..] == Zeros(STATUSES) && log.Abs() == Intervals([], None)
      ensures processed == errors == last == totalTime == num == 0
    {
      this.size := size;
      limits := new int[TIERS](_ => 0);
      tiers := new int[TIERS + 1](_ => 0);
      statuses := new int[STATUSES](_ => 0);
      log := new DefectLog();
      processed, errors, first, last, totalTime := 0, 0, 0, 0, 0;
      current, toProcess, num, den, offset := 0, 0, 0, 0, 0;
      report := Report(0, 0, 0, 0);
    }

    /** `Open`: nonzero for a range or block size that cannot be scanned. */
    method Open(start: int, end: int, capacity: int) returns (r: int)
      requires limits.Length == TIERS && limits != tiers && limits != statuses && tiers != statuses
      requires tiers[..] == Zeros(TIERS + 1) && statuses[..] == Zeros(STATUSES) && log.Abs() == Intervals([], None)
      requires processed == errors == last == totalTime == num == 0
      modifies this, limits
      ensures r == 0 <==> size > 0 && start < end <= capacity
      ensures r == 0 ==> Valid() && Abs() == Start(start, end) && den == Needed(size, end - start)
    {
      if size <= 0 {
        return 1;
      }
      first := -1;
      GetVisThresholds(size, limits);
      current := start;
      if end <= start {
        return 1;
      }
      if end > capacity {
        return 1;
      }
      toProcess := end - start;
      den := toProcess / size;
      if toProcess % size != 0 {
        den := den + 1;
      }
      offset := 512 * start;
      r := 0;
    }

    /** The report accumulators for an OK block: the search through the limits. */
    method CountTier(time: int)
      requires Valid()
      modifies tiers
      ensures tiers[..] == Bump(old(tiers[..]), Tier(size, time))
    {
      var i := 0;
      while i < TIERS && time >= limits[i]
        invariant 0 <= i <= TIERS
        invariant Tier(size, time) == TierFrom(limits[..], time, i)
        decreases TIERS - i
      {
        i := i + 1;
      }
      assert Tier(size, time) == i;
      tiers[i] := tiers[i] + 1;
    }

    /** How `Perform` files a block in the defect list. */
    method Classify(o: Observation) returns (kind: int)
      requires Valid()
      ensures kind == KindOf(size, o)
    {
      assert forall i | 0 <= i < TIERS :: limits[..][i] == Thresholds(size)[i];
      kind := FINE;
      if o.status != 0 {
        kind := DAMAGED;
      } else if o.time >= limits[TIERS - 1] {
        kind := SEVERE;
      } else if o.time >= limits[TIERS - 2] {
        kind := SLOW;
      }
    }

    /** The error and access-time accumulators of `Perform`. */
    method Accumulate()
      requires Valid() && report.status < STATUSES
      modifies this`errors, this`first, this`last, tiers, statuses
      ensures Valid()
      ensures if report.status != 0
              then errors == old(errors) + 1 && first == (if old(first) < 0 then report.lba else old(first))
                   && last == report.lba + report.sectors - 1
                   && tiers[..] == old(tiers[..]) && statuses[..] == Bump(old(statuses[..]), report.status)
              else errors == old(errors) && first == old(first) && last == old(last)
                   && tiers[..] == Bump(old(tiers[..]), Tier(size, report.time)) && statuses[..] == old(statuses[..])
    {
      if report.status != 0 {
        statuses[report.status] := statuses[report.status] + 1;
        errors := errors + 1;
        if first < 0 {
          first := report.lba;
        }
        last := report.lba + report.sectors - 1;
      } else {
        CountTier(report.time);
      }
    }

    /** `Perform`. */
    method Perform(o: Observation)
      requires Valid() && Plausible(o)
      modifies this`processed, this`errors, this`first, this`last, this`totalTime, this`current, this`toProcess,
               this`num, this`offset, this`report, tiers, statuses, log
      ensures Valid() && Abs() == Account(size, old(Abs()), o)
      ensures report == Report(old(current), NextSectors(size, old(Abs())), o.status, o.time)
    {
      hide Update, Bump, Tier, KindOf, Account;
      ghost var t := Abs();
      var sectorsToRead := if toProcess < size then toProcess else size;
      report := Report(current, sectorsToRead, o.status, o.time);
      if o.status != 0 {
        offset := 512 * current;
      } else {
        offset := offset + 512 * sectorsToRead;
      }
      num := num + 1;
      toProcess := toProcess - sectorsToRead;
      current := current + sectorsToRead;
      processed := processed + 1;
      totalTime := totalTime + report.time;
      var kind := Classify(o);
      log.DgIntervalUpdate(report.lba, report.lba + report.sectors - 1, kind);
      assert log.Abs() == Update(t.log, t.current, t.current + sectorsToRead - 1, KindOf(size, o));
      assert tiers[..] == t.tiers && statuses[..] == t.statuses;
      Accumulate();
      AccountIs(size, t, o, Abs());
    }
  }
}
