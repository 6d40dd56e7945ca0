/** One block of the copy procedure, and whole runs of it. */
module CopyRun {
  import opened CopyTypes
  import opened ReadStrategies
  import opened ZoneCover

  /** Scheduler, journal, destination and progress of a copy. The destination is a device or a
      file: `dstLength` is its size in whole sectors, which writing beyond it extends, and
      `dstEnd` the size measured when the copy was opened, 0 meaning that there is no limit. */
  datatype Copy = Copy(sched: Sched, journal: seq<SectorStatus>, dst: seq<Content>, dstLength: int, dstEnd: int,
                       num: int, den: int)

  ghost predicate ConfigOk(c: Config) {
    c.skipBlocks >= 1
  }

  /** What holds between any two blocks. */
  ghost predicate Valid(c: Config, s: Copy) {
    && ConfigOk(c)
    && CursorOk(s.sched)
    && Tracks(s.sched.zones, s.journal)
    && |s.journal| == |s.dst| == |c.source|
    && s.den - s.num == Total(s.sched.zones)
    && (c.strategy == Plain ==> !s.sched.reverse)
    && (s.sched.stage == 0 || (s.sched.stage == 1 && IsSmart(c) && !s.sched.reverse))
  }

  // ----- get_task keeps the unread set -----

  lemma MidPointInside(z: Zone)
    requires 0 <= z.begin && Length(z) > INDIVISIBLE_DEFECT_ZONE_SIZE_SECTORS
    ensures z.begin + 499745 <= MidPoint(z) <= z.end - 499745
  {
  }

  lemma SkipPointInside(c: Config, z: Zone)
    requires ConfigOk(c) && 0 <= z.begin && Length(z) > c.skipBlocks * SECTORS_AT_ONCE
    ensures z.begin + (c.skipBlocks - 1) * SECTORS_AT_ONCE + 1 <= SkipPoint(c, z)
    ensures SkipPoint(c, z) <= z.begin + c.skipBlocks * SECTORS_AT_ONCE
    ensures z.begin < SkipPoint(c, z) < z.end
  {
  }

  lemma SplitExact(zones: seq<Zone>, i: nat, at: int, journal: seq<SectorStatus>)
    requires Tracks(zones, journal) && i < |zones| && zones[i].begin < at < zones[i].end
    ensures Sorted(SplitZone(zones, i, at)) && Exact(SplitZone(zones, i, at), journal)
  {
    SplitSorted(zones, i, at);
    var s := SplitZone(zones, i, at);
    assert forall a | 0 <= a < |s| :: s[a].end <= zones[if a <= i then a else a - 1].end;
    forall k | 0 <= k < |journal| ensures journal[k] == Unread <==> Covered(s, k) {
      SplitCovers(zones, i, at, k);
    }
  }

  /** Reading at either side of a fresh split is reading where zones touch. */
  lemma SplitNear(s: Sched, i: nat, at: int)
    requires Gapped(s.zones) && i < |s.zones| && s.zones[i].begin < at < s.zones[i].end
    ensures Near(s.(zones := SplitZone(s.zones, i, at), current := Some(i), reverse := true))
    ensures Near(s.(zones := SplitZone(s.zones, i, at), current := Some(i + 1), reverse := false))
  {
    SplitSorted(s.zones, i, at);
  }

  ghost predicate AllStuck(c: Config, zones: seq<Zone>) {
    forall i | 0 <= i < |zones| :: Stuck(c, zones, i)
  }

  predicate IsSmart(c: Config) {
    c.strategy == Smart || c.strategy == SmartNoReverse
  }

  /** After smart's split the search always succeeds, on the freshly made border: the left
      half, backward, when reverse reading is allowed, and the right half, forward, otherwise. */
  lemma SmartJumpLands(c: Config, s: Sched, k: nat)
    requires IsSmart(c) && k < |s.zones| && AllStuck(c, s.zones)
    ensures SmartJump(c, s, k) ==
            Some(s.(zones := SplitZone(s.zones, k, MidPoint(s.zones[k])),
                    current := Some(if c.strategy == Smart then k else k + 1),
                    reverse := c.strategy == Smart))
  {
    var zones := SplitZone(s.zones, k, MidPoint(s.zones[k]));
    forall i | 0 <= i < k ensures Stuck(c, zones, i) {
      assert Stuck(c, s.zones, i) && zones[i] == s.zones[i];
    }
    assert Stuck(c, s.zones, k) && zones[k].beginBad;
    assert !zones[k].endBad && !zones[k + 1].beginBad;
    var j := FirstLive(c, zones, 0);
    assert !Stuck(c, zones, k + 1);
    assert Stuck(c, zones, k) <==> c.strategy == SmartNoReverse;
  }

  lemma KeepNear(s: Sched)
    requires Gapped(s.zones) && s.current.Some? && s.current.value < |s.zones|
    ensures Near(s)
  {
  }

  lemma SmartChooseNear(c: Config, s: Sched, journal: seq<SectorStatus>)
    requires IsSmart(c) && CursorOk(s) && |s.zones| > 0 && Tracks(s.zones, journal)
    ensures SmartChoose(c, s).Some?
    ensures var s' := SmartChoose(c, s).value;
            Near(s') && Exact(s'.zones, journal) && Total(s'.zones) == Total(s.zones)
  {
    hide FirstLive, LargestOf;
    if s.current.None? && s.stage != 1 && FirstLive(c, s.zones, 0) == |s.zones| {
      var k := LargestOf(s.zones, |s.zones|);
      if MaySplit(s.zones, k) {
        assert SmartChoose(c, s) == SmartJump(c, s, k);
        SmartJumpLands(c, s, k);
        var at := MidPoint(s.zones[k]);
        MidPointInside(s.zones[k]);
        SplitExact(s.zones, k, at, journal);
        SplitNear(s, k, at);
        SplitTotal(s.zones, k, at);
        return;
      }
    }
    KeepNear(SmartChoose(c, s).value);
  }

  lemma SkipfailChooseNear(c: Config, s: Sched, journal: seq<SectorStatus>)
    requires c.strategy == Skipfail || c.strategy == SkipfailNoReverse
    requires ConfigOk(c) && CursorOk(s) && |s.zones| > 0 && Tracks(s.zones, journal)
    requires SkipfailChoose(c, s).Some?
    ensures var s' := SkipfailChoose(c, s).value;
            Near(s') && Exact(s'.zones, journal) && Total(s'.zones) == Total(s.zones)
  {
    hide FirstLive;
    var s' := SkipfailChoose(c, s).value;
    if s'.zones == s.zones {
      KeepNear(s');
    } else {
      var i := FirstLive(c, s.zones, 0);
      var at := SkipPoint(c, s.zones[i]);
      SkipPointInside(c, s.zones[i]);
      SplitExact(s.zones, i, at, journal);
      SplitNear(s, i, at);
      SplitTotal(s.zones, i, at);
    }
  }

  /** The scheduler after `get_task`, in terms of the zones before it. */
  lemma ChooseNear(c: Config, s: Sched, journal: seq<SectorStatus>)
    requires ConfigOk(c) && CursorOk(s) && |s.zones| > 0 && Tracks(s.zones, journal)
    requires Choose(c, s).Some?
    ensures var s' := Choose(c, s).value;
            Near(s') && Exact(s'.zones, journal) && Total(s'.zones) == Total(s.zones)
  {
    match c.strategy
    case Plain => KeepNear(Choose(c, s).value);
    case Smart => SmartChooseNear(c, s, journal);
    case SmartNoReverse => SmartChooseNear(c, s, journal);
    case Skipfail => SkipfailChooseNear(c, s, journal);
    case SkipfailNoReverse => SkipfailChooseNear(c, s, journal);
  }

  /** Which scheduler fields `get_task` and `use_results` may leave how. */
  lemma ModeKept(c: Config, s: Sched, n: int, failed: bool)
    requires CursorOk(s) && |s.zones| > 0 && Choose(c, s).Some?
    requires c.strategy == Plain ==> !s.reverse
    requires s.stage == 0 || (s.stage == 1 && IsSmart(c) && !s.reverse)
    ensures var s1 := Choose(c, s).value; s1.stage == 0 || (s1.stage == 1 && IsSmart(c) && !s1.reverse)
    ensures var s' := UseResults(c, Choose(c, s).value, n, failed);
            && CursorOk(s')
            && (c.strategy == Plain ==> !s'.reverse)
            && (s'.stage == 0 || (s'.stage == 1 && IsSmart(c) && !s'.reverse))
            && s'.zones == Consume(Choose(c, s).value, n, failed).zones
  {
    hide FirstLive, LargestOf;
  }

  // ----- one block -----

  /** The report's `blk_status`: a short write counts as a failure here... */
  predicate BlockFailed(o: Outcome) {
    !o.Copied?
  }

  /** ...but not in the journal. */
  function StatusOf(o: Outcome, n: int): SectorStatus {
    if !o.ReadFailed? then ReadOk else if n == 1 then SectorReadError else BlockReadError
  }

  /** The destination after the first `w` sectors of a block have been written to it. */
  function WriteDst(dst: seq<Content>, source: seq<Content>, t: Task, w: int): (r: seq<Content>)
    requires 0 <= t.lba && 0 <= w && t.lba + w <= |dst| == |source|
    ensures |r| == |dst|
    ensures forall k | 0 <= k < |dst| :: r[k] == if t.lba <= k < t.lba + w then source[k] else dst[k]
  {
    dst[..t.lba] + source[t.lba..t.lba + w] + dst[t.lba + w..]
  }

  /** How many sectors of an `n`-sector block reach the destination. */
  function Accepted(o: Outcome, n: int): int {
    match o
    case ReadFailed => 0
    case Copied => n
    case WrittenShort(w) => if w < n then w else n - 1
  }

  /** A task the destination has no room for ends the copy before anything is read. */
  predicate NoRoom(dstEnd: int, t: Task) {
    dstEnd != 0 && t.lba + t.sectors > dstEnd
  }

  /** The size of the destination after `w` sectors have been written to it at `lba`. */
  function Extended(length: int, lba: int, w: int): int {
    if w > 0 && lba + w > length then lba + w else length
  }

  /** What reading one block does; the scheduler already points at the block. */
  function Process(c: Config, s: Copy, o: Outcome): Copy
    requires s.sched.current.Some? && s.sched.current.value < |s.sched.zones|
    requires var t := Proceed(s.sched); 0 <= t.lba && 0 < t.sectors && t.lba + t.sectors <= |s.journal|
    requires |s.journal| == |s.dst| == |c.source|
  {
    var t := Proceed(s.sched);
    Copy(UseResults(c, s.sched, t.sectors, BlockFailed(o)),
         Mark(s.journal, t, StatusOf(o, t.sectors)),
         WriteDst(s.dst, c.source, t, Accepted(o, t.sectors)),
         Extended(s.dstLength, t.lba, Accepted(o, t.sectors)), s.dstEnd,
         s.num + t.sectors, s.den)
  }

  lemma ProcessOk(c: Config, s: Copy, o: Outcome)
    requires Valid(c, s) && |s.sched.zones| > 0 && Choose(c, s.sched).Some?
    ensures var s1 := Choose(c, s.sched).value; var t := Proceed(s1);
            && Near(s1) && Exact(s1.zones, s.journal)
            && 0 <= t.lba && 0 < t.sectors <= SECTORS_AT_ONCE && t.lba + t.sectors <= |s.journal|
            && (forall k | InTask(t, k) :: s.journal[k] == Unread)
            && Valid(c, Process(c, s.(sched := s1), o))
  {
    hide Choose, UseResults;
    ChooseNear(c, s.sched, s.journal);
    var s1 := Choose(c, s.sched).value;
    var n := Proceed(s1).sectors;
    ConsumeTracks(s1, BlockFailed(o), s.journal, StatusOf(o, n));
    ConsumeTotal(s1, n, BlockFailed(o));
    ModeKept(c, s.sched, n, BlockFailed(o));
  }

  /** A call of the procedure's perform: refused before reading, or a block done. */
  datatype StepResult = Refused(next: Copy) | Done(next: Copy, task: Task, abort: bool)

  function Step(c: Config, s: Copy, o: Outcome): (r: StepResult)
    requires Valid(c, s) && s.num < s.den
    ensures r.Done? ==> Valid(c, r.next) && r.next.den - r.next.num < s.den - s.num
  {
    TotalNonNegative(s.sched.zones);
    match Choose(c, s.sched)
    case None => Refused(s)
    case Some(s1) =>
      var t := Proceed(s1);
      if NoRoom(s.dstEnd, t) then Refused(s.(sched := s1))
      else
        ProcessOk(c, s, o);
        Done(Process(c, s.(sched := s1), o), t, c.strategy == Plain && BlockFailed(o))
  }

  /** How the loop of a procedure ends. */
  datatype Ending = Finished | Interrupted | GaveUp | Aborted

  datatype RunResult = RunResult(final: Copy, tasks: seq<Task>, ending: Ending)

  /** The loop over blocks; it is interrupted when the given outcomes run out. */
  function Run(c: Config, s: Copy, os: seq<Outcome>): (r: RunResult)
    requires Valid(c, s)
    ensures r.ending != GaveUp ==> Valid(c, r.final)
    ensures |r.tasks| <= |os|
    decreases |os|
  {
    if s.num >= s.den then RunResult(s, [], Finished)
    else if os == [] then RunResult(s, [], Interrupted)
    else
      match Step(c, s, os[0])
      case Refused(s') => RunResult(s', [], GaveUp)
      case Done(s', t, abort) =>
        if abort then RunResult(s', [t], Aborted)
        else
          var r := Run(c, s', os[1..]);
          r.(tasks := [t] + r.tasks)
  }
}
