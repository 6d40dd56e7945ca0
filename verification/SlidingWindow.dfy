/** The sliding-window renderer's ring functions and counters. */
module SlidingWindow {
  import opened VisThresholds
  import opened DefectList
  import opened ReadTest
  import opened ReadTestScan
  import opened ReportRing

  const COUNTERS := 7

  /** `access_time_stats_accum` and `error_stats_accum`. */
  datatype Counts = Counts(times: seq<int>, errors: seq<int>)

  /** The counting half of `render_update_vis`. */
  function Count(size: int, c: Counts, r: Report): Counts {
    if r.status != 0 then c.(errors := Bump(c.errors, r.status))
    else c.(times := Bump(c.times, Tier(size, r.time)))
  }

  function CountAll(size: int, c: Counts, reports: seq<Report>): Counts {
    if reports == [] then c else Count(size, CountAll(size, c, reports[..|reports| - 1]), reports[|reports| - 1])
  }

  const NOTHING := Counts(Zeros(COUNTERS), Zeros(COUNTERS))

  class Window {
    const size: int              // sectors per block, as given to vis_set_block_size
    const limits: array<int>     // the access times of bs_vis
    const reports: array<Report>
    const times: array<int>
    const errors: array<int>
    var write: nat
    var read: nat

    ghost predicate Valid()
      reads this, limits
    {
      && size > 0 && limits.Length == TIERS && times.Length == COUNTERS && errors.Length == COUNTERS
      && limits != times && limits != errors && times != errors
      && limits[..] == Thresholds(size) && reports.Length == SLOTS
      && read <= write
    }

    /** The reports queued, oldest first. */
    ghost function Queue(): seq<Report>
      requires Valid()
      reads this, limits, reports
    {
      Queued(reports[..], read, write)
    }

    ghost function Totals(): Counts
      reads times, errors
    {
      Counts(times[..], errors[..])
    }

    constructor (size: int, filler: Report)
      requires size > 0
      ensures Valid() && this.size == size && Queue() == [] && Totals() == NOTHING
    {
      this.size := size;
      limits := new int[TIERS](_ => 0);
      reports := new Report[SLOTS](_ => filler);
      times := new int[COUNTERS](_ => 0);
      errors := new int[COUNTERS](_ => 0);
      write, read := 0, 0;
      new;
      GetVisThresholds(size, limits);
    }

    /** The queueing half of `HandleReport`. The report joins the queue; when the ring is full it
        also takes the place of those that lie a whole ring before it. */
    method HandleReport(r: Report)
      requires Valid()
      modifies this`write, reports
      ensures Valid() && read == old(read) && write == old(write) + 1
      ensures Queue() == Overtaken(old(Queue()), r) + [r]
      ensures old(write - read) < SLOTS ==> Queue() == old(Queue()) + [r]
    {
      ghost var before := reports[..];
      reports[write % reports.Length] := r;
      QueueGrows(before, read, write, r);
      write := write + 1;
    }

    /** `blk_rep_read`. */
    method BlkRepRead() returns (r: Report)
      requires Valid() && read < write
      modifies this`read
      ensures Valid() && [r] + Queue() == old(Queue())
    {
      r := reports[read % reports.Length];
      read := read + 1;
    }

    /** The counting half of `render_update_vis`. */
    method RenderUpdateVis(r: Report)
      requires Valid() && r.status < COUNTERS
      modifies times, errors
      ensures Valid() && Totals() == Count(size, old(Totals()), r)
    {
      if r.status != 0 {
        errors[r.status] := errors[r.status] + 1;
      } else {
        TierExact(size, r.time, 0);
        var i := 0;
        while i < TIERS && r.time >= limits[i]
          invariant 0 <= i <= TIERS && Tier(size, r.time) == TierFrom(limits[..], r.time, i)
          decreases TIERS - i
        {
          i := i + 1;
        }
        assert Tier(size, r.time) == i;
        times[i] := times[i] + 1;
      }
    }

    /** `render_queued`: everything queued is counted, in order. */
    method RenderQueued()
      requires Valid() && forall i | 0 <= i < |Queue()| :: Queue()[i].status < COUNTERS
      modifies this`read, times, errors
      ensures Valid() && Queue() == [] && write == old(write)
      ensures Totals() == CountAll(size, old(Totals()), old(Queue()))
    {
      hide Count, Tier;
      ghost var all := Queue();
      ghost var start := Totals();
      var queueLength := write - read;
      ghost var n := 0;
      while queueLength != 0
        invariant 0 <= n <= |all| && queueLength == |all| - n && queueLength == write - read
        invariant Valid() && write == old(write) && reports[..] == old(reports[..])
        invariant Queue() == all[n..]
        invariant Totals() == CountAll(size, start, all[..n])
      {
        var curRep := BlkRepRead();
        assert curRep == all[n] && Queue() == all[n + 1..];
        RenderUpdateVis(curRep);
        assert all[..n + 1][..n] == all[..n];
        queueLength := queueLength - 1;
        n := n + 1;
      }
      assert all[..n] == all;
    }
  }

  /** A queue after its newest neighbour `r`: a report a multiple of the ring's size back is overwritten. */
  ghost function Overtaken(queue: seq<Report>, r: Report): seq<Report> {
    seq(|queue|, i requires 0 <= i < |queue| => if (|queue| - i) % SLOTS == 0 then r else queue[i])
  }

  ghost function Queued(slots: seq<Report>, read: nat, write: nat): seq<Report>
    requires |slots| == SLOTS && read <= write
  {
    seq(write - read, i requires 0 <= i < write - read => slots[(read + i) % SLOTS])
  }

  lemma QueueGrows(slots: seq<Report>, read: nat, write: nat, r: Report)
    requires |slots| == SLOTS && read <= write
    ensures Queued(slots[write % SLOTS := r], read, write + 1) == Overtaken(Queued(slots, read, write), r) + [r]
    ensures write - read < SLOTS ==> Overtaken(Queued(slots, read, write), r) == Queued(slots, read, write)
  {
    var a, b := Queued(slots[write % SLOTS := r], read, write + 1), Overtaken(Queued(slots, read, write), r) + [r];
    forall i | 0 <= i < |a| ensures a[i] == b[i] {
      if i < write - read { SameSlot(read + i, write); }
    }
  }

  lemma SameSlot(a: nat, b: nat)
    requires a <= b
    ensures a % SLOTS == b % SLOTS <==> (b - a) % SLOTS == 0
  {
    var d := b - a;
    assert b == SLOTS * (a / SLOTS + d / SLOTS) + a % SLOTS + d % SLOTS;
  }

  // ----- the renderer's histogram is the report's -----

  lemma BumpPadded(counts: seq<int>, i: nat)
    requires i < |counts|
    ensures Bump(counts + [0], i) == Bump(counts, i) + [0]
  {
  }

  /** For every scan and block size the renderer's counters, after all reports have been counted,
      are the read test's own accumulators (the seventh time counter is never used). */
  lemma {:induction false} HistogramsAgree(size: int, start: int, end: int, os: seq<Observation>)
    requires size > 0 && AllPlausible(os)
    ensures var t := Scan(size, start, end, os);
            CountAll(size, NOTHING, ReportsOf(size, start, end, os)) == Counts(t.tiers + [0], t.statuses)
  {
    hide Update, KindOf, Tier;
    if os == [] {
      assert Zeros(COUNTERS) == Zeros(TIERS + 1) + [0];
    } else {
      var n := |os| - 1;
      var t := Scan(size, start, end, os[..n]);
      HistogramsAgree(size, start, end, os[..n]);
      CountsAgree(size, start, end, os[..n]);
      var rest, all := ReportsOf(size, start, end, os[..n]), ReportsOf(size, start, end, os);
      assert all[..|all| - 1] == rest;
      if os[n].status == 0 {
        TierExact(size, os[n].time, 0);
        BumpPadded(t.tiers, Tier(size, os[n].time));
      }
    }
  }

  /** End to end: when the read test publishes its reports through the ring and no fill found the
      ring too full, then after the render thread has gone its counters equal the report's. */
  lemma EndToEnd(size: int, start: int, end: int, os: seq<Observation>,
                 slots: seq<Cell<Report>>, actions: seq<Action<Report>>)
    requires size > 0 && AllPlausible(os) && |slots| == SLOTS && FillsFit(Initial(slots), actions)
    requires var f := RunActions(Initial(slots), actions);
             f.reader.Exited? && f.produced == ReportsOf(size, start, end, os)
    ensures var f, t := RunActions(Initial(slots), actions), Scan(size, start, end, os);
            && (forall i | 0 <= i < |f.consumed| :: f.consumed[i].Whole?)
            && CountAll(size, NOTHING, Contents(f.consumed)) == Counts(t.tiers + [0], t.statuses)
  {
    hide Count, Scan;
    InitialInv(slots);
    RingDelivers(Initial(slots), actions);
    var f := RunActions(Initial(slots), actions);
    assert Contents(f.consumed) == f.produced;
    HistogramsAgree(size, start, end, os);
  }

  /** For every scan there is such an interleaving. */
  lemma EndToEndHappens(size: int, start: int, end: int, os: seq<Observation>, slots: seq<Cell<Report>>)
    returns (actions: seq<Action<Report>>)
    requires size > 0 && AllPlausible(os) && |slots| == SLOTS
    ensures FillsFit(Initial(slots), actions)
    ensures var f, t := RunActions(Initial(slots), actions), Scan(size, start, end, os);
            && f.reader.Exited? && f.produced == ReportsOf(size, start, end, os)
            && (forall i | 0 <= i < |f.consumed| :: f.consumed[i].Whole?)
            && CountAll(size, NOTHING, Contents(f.consumed)) == Counts(t.tiers + [0], t.statuses)
  {
    hide Count, Scan, RunActions, FillsFit;
    actions := TakingTurns(ReportsOf(size, start, end, os));
    SomeRunDelivers(slots, ReportsOf(size, start, end, os));
    EndToEnd(size, start, end, os, slots, actions);
  }

  /** What the renderer has counted after a scan, outright: each time counter the OK blocks between its
      limits, each error counter the blocks with its status. */
  lemma CountersExact(size: int, start: int, end: int, os: seq<Observation>)
    requires size > 0 && AllPlausible(os)
    ensures var counts := CountAll(size, NOTHING, ReportsOf(size, start, end, os));
            && |counts.times| == 7 && |counts.errors| == 7
            && (forall i | 0 <= i < 6 :: counts.times[i] == TierCount(size, os, i)) && counts.times[6] == 0
            && (forall j | 1 <= j < 7 :: counts.errors[j] == StatusCount(os, j)) && counts.errors[0] == 0
  {
    hide Count, Scan, TierCount;
    HistogramsAgree(size, start, end, os);
    HistogramsExact(size, start, end, os);
  }
}
