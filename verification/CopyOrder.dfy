/** In which order blocks are read, when jumping stops, and when a strategy gives up. */
module CopyOrder {
  import opened CopyTypes
  import opened ReadStrategies
  import opened ZoneCover
  import opened CopyRun
  import opened CopyBounds
  import opened CopyHistory
  import opened CopyResume

  /** Every block ends at or before the start of every later one. */
  ghost predicate Ascending(tasks: seq<Task>) {
    forall i, j | 0 <= i < j < |tasks| :: tasks[i].lba + tasks[i].sectors <= tasks[j].lba
  }

  ghost predicate AllFrom(tasks: seq<Task>, lba: int) {
    forall i | 0 <= i < |tasks| :: lba <= tasks[i].lba
  }

  lemma PrependAscending(t: Task, tasks: seq<Task>)
    requires Ascending(tasks) && AllFrom(tasks, t.lba + t.sectors)
    ensures Ascending([t] + tasks)
  {
    var a := [t] + tasks;
    forall i, j | 0 <= i < j < |a| ensures a[i].lba + a[i].sectors <= a[j].lba {
      assert a[j] == tasks[j - 1];
      assert i > 0 ==> a[i] == tasks[i - 1];
    }
  }

  // ----- skipfail_noreverse only moves forward -----

  /** Every zone that starts before `lba` is one skipfail will never read again. */
  ghost predicate Behind(c: Config, zones: seq<Zone>, lba: int) {
    forall i | 0 <= i < |zones| && zones[i].begin < lba :: Stuck(c, zones, i)
  }

  lemma SkipAimsAhead(c: Config, s: Sched, lba: int)
    requires c.strategy == SkipfailNoReverse && ConfigOk(c) && Coherent(c, s) && |s.zones| > 0 && Gapped(s.zones)
    requires s.stage == 0 && Behind(c, s.zones, lba) && Choose(c, s).Some?
    ensures var s1 := Choose(c, s).value; lba <= s1.zones[s1.current.value].begin
  {
    var s1 := Choose(c, s).value;
    if s1.zones != s.zones {
      var i := FirstLive(c, s.zones, 0);
      SkipPointInside(c, s.zones[i]);
      assert !Stuck(c, s.zones, i);
    } else {
      assert !Stuck(c, s.zones, s1.current.value);
    }
  }

  lemma SkipLeavesBehind(c: Config, s: Sched, failed: bool)
    requires c.strategy == SkipfailNoReverse && Aimed(c, s) && s.stage == 0 && Near(s)
    ensures Behind(c, Consume(s, Proceed(s).sectors, failed).zones, Proceed(s).lba + Proceed(s).sectors)
  {
    TaskInZone(s);
    var t, i0 := Proceed(s), s.current.value;
    var zones := Consume(s, t.sectors, failed).zones;
    forall j | 0 <= j < |zones| && zones[j].begin < t.lba + t.sectors ensures Stuck(c, zones, j) {
      var i := ConsumedFrom(s, failed, j);
      assert i < i0 && Stuck(c, s.zones, i);
    }
  }

  lemma SkipMovesOn(c: Config, s: Copy, o: Outcome, lba: int)
    requires c.strategy == SkipfailNoReverse && Valid(c, s) && Coherent(c, s.sched) && s.num < s.den
    requires Behind(c, s.sched.zones, lba) && Step(c, s, o).Done?
    ensures var r := Step(c, s, o);
            && lba <= r.task.lba && 0 < r.task.sectors
            && Coherent(c, r.next.sched)
            && Behind(c, r.next.sched.zones, r.task.lba + r.task.sectors)
  {
    hide Choose, UseResults, Consume, Mark, WriteDst, Proceed;
    HasZones(c, s);
    ProcessOk(c, s, o);
    ChooseAims(c, s.sched);
    SkipAimsAhead(c, s.sched, lba);
    var s1 := Choose(c, s.sched).value;
    ModeKept(c, s.sched, Proceed(s1).sectors, BlockFailed(o));
    TaskInZone(s1);
    UseCoheres(c, s1, BlockFailed(o));
    SkipLeavesBehind(c, s1, BlockFailed(o));
  }

  lemma {:induction false} SkipAscends(c: Config, s: Copy, os: seq<Outcome>, lba: int)
    requires c.strategy == SkipfailNoReverse && Valid(c, s) && Coherent(c, s.sched)
    requires Behind(c, s.sched.zones, lba)
    ensures AllFrom(Run(c, s, os).tasks, lba) && Ascending(Run(c, s, os).tasks)
    decreases |os|
  {
    hide Step;
    if s.num < s.den && os != [] {
      var r := Step(c, s, os[0]);
      if r.Done? {
        SkipMovesOn(c, s, os[0], lba);
        SkipAscends(c, r.next, os[1..], r.task.lba + r.task.sectors);
        PrependAscending(r.task, Run(c, r.next, os[1..]).tasks);
      }
    }
  }

  /** skipfail_noreverse reads at strictly growing addresses over the whole run, from a fresh
      start and from any journal. */
  lemma SkipfailNoReverseAscends(c: Config, s: Copy, os: seq<Outcome>)
    requires c.strategy == SkipfailNoReverse && Valid(c, s) && Coherent(c, s.sched)
    ensures Ascending(Run(c, s, os).tasks)
  {
    SkipAscends(c, s, os, -1);
  }

  // ----- the sequential modes -----

  /** The zones block by block, from the first address to the last. */
  function Sweep(zones: seq<Zone>): seq<Task>
    decreases |zones|, if zones == [] then 0 else Length(zones[0])
  {
    if zones == [] || Length(zones[0]) <= 0 then []
    else
      var z := zones[0];
      if Length(z) <= SECTORS_AT_ONCE then [Task(z.begin, Length(z))] + Sweep(zones[1..])
      else [Task(z.begin, SECTORS_AT_ONCE)] + Sweep([z.(begin := z.begin + SECTORS_AT_ONCE)] + zones[1..])
  }

  /** Sweep looks at the borders only. */
  lemma {:induction false} SweepByExtents(a: seq<Zone>, b: seq<Zone>)
    requires SameExtents(a, b)
    ensures Sweep(a) == Sweep(b)
    decreases |a|, if a == [] then 0 else Length(a[0])
  {
    if a != [] && Length(a[0]) > 0 {
      if Length(a[0]) <= SECTORS_AT_ONCE {
        SweepByExtents(a[1..], b[1..]);
      } else {
        var x, y := a[0].(begin := a[0].begin + SECTORS_AT_ONCE), b[0].(begin := b[0].begin + SECTORS_AT_ONCE);
        SweepByExtents([x] + a[1..], [y] + b[1..]);
      }
    }
  }

  lemma {:induction false} SweepAscends(zones: seq<Zone>, lba: int)
    requires Sorted(zones) && (zones != [] ==> lba <= zones[0].begin)
    ensures Ascending(Sweep(zones)) && AllFrom(Sweep(zones), lba)
    decreases |zones|, if zones == [] then 0 else Length(zones[0])
  {
    if zones != [] {
      var z := zones[0];
      if Length(z) <= SECTORS_AT_ONCE {
        SweepAscends(zones[1..], z.end);
        PrependAscending(Task(z.begin, Length(z)), Sweep(zones[1..]));
      } else {
        var rest := [z.(begin := z.begin + SECTORS_AT_ONCE)] + zones[1..];
        SweepAscends(rest, z.begin + SECTORS_AT_ONCE);
        PrependAscending(Task(z.begin, SECTORS_AT_ONCE), Sweep(rest));
      }
    }
  }

  /** plain always reads sequentially; smart does once it has entered stage 1. */
  ghost predicate Sequential(c: Config, s: Sched) {
    || c.strategy == Plain
    || (IsSmart(c) && s.stage == 1 && (s.current == None || s.current == Some(0)))
  }

  lemma SweepHead(s: Sched, failed: bool)
    requires s.current == Some(0) && !s.reverse && |s.zones| > 0 && Length(s.zones[0]) > 0
    ensures Sweep(s.zones) == [Proceed(s)] + Sweep(Consume(s, Proceed(s).sectors, failed).zones)
  {
    var z := s.zones[0];
    var zones := Consume(s, Proceed(s).sectors, failed).zones;
    if Length(z) <= SECTORS_AT_ONCE {
      assert zones == s.zones[1..];
    } else {
      SweepByExtents(zones, [z.(begin := z.begin + SECTORS_AT_ONCE)] + s.zones[1..]);
    }
  }

  lemma SequentialUse(c: Config, s: Sched, failed: bool)
    requires Sequential(c, s) && s.current == Some(0) && |s.zones| > 0
    ensures Sequential(c, UseResults(c, s, Proceed(s).sectors, failed))
    ensures UseResults(c, s, Proceed(s).sectors, failed).stage == s.stage
  {
  }

  lemma SequentialStep(c: Config, s: Copy, o: Outcome)
    requires Valid(c, s) && s.num < s.den && Sequential(c, s.sched) && RoomFor(c, s)
    ensures Step(c, s, o).Done? && Sequential(c, Step(c, s, o).next.sched)
    ensures Step(c, s, o).next.sched.stage == s.sched.stage && Step(c, s, o).next.dstEnd == s.dstEnd
    ensures Sweep(s.sched.zones) == [Step(c, s, o).task] + Sweep(Step(c, s, o).next.sched.zones)
  {
    HasZones(c, s);
    ProcessOk(c, s, o);
    var s1 := Choose(c, s.sched).value;
    SequentialUse(c, s1, BlockFailed(o));
    SweepHead(s1, BlockFailed(o));
    ModeKept(c, s.sched, Proceed(s1).sectors, BlockFailed(o));
  }

  /** In the sequential modes the blocks read are the sweep of the zones left, for every
      pattern of errors: a prefix of it until the run finishes, then all of it. Stage 1 is
      never left. */
  lemma {:induction false} SequentialSweeps(c: Config, s: Copy, os: seq<Outcome>)
    requires Valid(c, s) && Sequential(c, s.sched) && RoomFor(c, s)
    ensures var r := Run(c, s, os);
            && r.tasks <= Sweep(s.sched.zones)
            && (r.ending == Finished ==> r.tasks == Sweep(s.sched.zones))
            && r.ending != GaveUp
            && r.final.sched.stage == s.sched.stage
    ensures Ascending(Run(c, s, os).tasks)
    decreases |os|
  {
    hide Step;
    SweepAscends(s.sched.zones, -1);
    TotalNonNegative(s.sched.zones);
    if s.num < s.den && os != [] {
      SequentialStep(c, s, os[0]);
      var r := Step(c, s, os[0]);
      if !r.abort { SequentialSweeps(c, r.next, os[1..]); }
    }
  }

  // ----- when smart stops jumping -----

  /** smart goes over to sequential reading exactly when every zone is defective at its
      readable borders and none may be split: the list is full, or all zones are small. */
  lemma SmartSurrender(c: Config, s: Sched)
    requires IsSmart(c) && CursorOk(s) && |s.zones| > 0 && s.stage == 0
    ensures SmartChoose(c, s).Some?
    ensures SmartChoose(c, s).value.stage == 1 <==>
            && s.current == None
            && (forall i | 0 <= i < |s.zones| ::
                  s.zones[i].beginBad && (c.strategy == SmartNoReverse || s.zones[i].endBad))
            && (|s.zones| >= MAX_ZONES
                || forall i | 0 <= i < |s.zones| :: Length(s.zones[i]) <= INDIVISIBLE_DEFECT_ZONE_SIZE_SECTORS)
  {
    var k, i := LargestOf(s.zones, |s.zones|), FirstLive(c, s.zones, 0);
    if i == |s.zones| {
      SmartJumpLands(c, s, k);
      forall j | 0 <= j < |s.zones| ensures s.zones[j].beginBad && (c.strategy == SmartNoReverse || s.zones[j].endBad) {
        assert Stuck(c, s.zones, j);
      }
    } else {
      assert !Stuck(c, s.zones, i);
    }
  }

  lemma SmartSplitsBelowMax(c: Config, s: Sched)
    requires IsSmart(c) && CursorOk(s) && |s.zones| > 0
    ensures SplitsNow(c, s) ==> |s.zones| < MAX_ZONES
  {
    hide FirstLive, LargestOf;
  }

  /** smart never lets the list grow beyond 1000 zones, unless it started longer. */
  lemma {:induction false} SmartListBounded(c: Config, s: Copy, os: seq<Outcome>, most: nat)
    requires Valid(c, s) && IsSmart(c) && |s.sched.zones| <= most && MAX_ZONES <= most
    ensures |Run(c, s, os).final.sched.zones| <= most
    decreases |os|
  {
    hide Choose, UseResults;
    if s.num < s.den && os != [] {
      HasZones(c, s);
      SmartChooseNear(c, s.sched, s.journal);
      SmartIsChosen(c, s.sched);
      SmartSplitsBelowMax(c, s.sched);
      ChooseRoom(c, s.sched);
      var r := Step(c, s, os[0]);
      if r.Done? {
        StepCounts(c, s, os[0]);
        SmartListBounded(c, r.next, os[1..], most);
      }
    }
  }

  // ----- when skipfail gives up -----

  /** skipfail's `get_task` fails exactly when it has no current zone and every zone is
      begin-defective, at most a skip long and, with reverse reading, end-defective or last. */
  lemma SkipfailGivesUpExactly(c: Config, s: Sched)
    requires IsSkipfail(c) && CursorOk(s) && |s.zones| > 0
    ensures SkipfailChoose(c, s) == None <==>
            && s.current == None
            && forall i | 0 <= i < |s.zones| ::
                 && s.zones[i].beginBad
                 && Length(s.zones[i]) <= c.skipBlocks * SECTORS_AT_ONCE
                 && (c.strategy == SkipfailNoReverse || s.zones[i].endBad || i + 1 == |s.zones|)
  {
    var i := FirstLive(c, s.zones, 0);
    if i == |s.zones| {
      forall j | 0 <= j < |s.zones|
        ensures s.zones[j].beginBad && Length(s.zones[j]) <= c.skipBlocks * SECTORS_AT_ONCE
        ensures c.strategy == SkipfailNoReverse || s.zones[j].endBad || j + 1 == |s.zones|
      {
        assert Stuck(c, s.zones, j);
      }
    } else {
      assert !Stuck(c, s.zones, i);
    }
  }

  /** A skipfail run with room at the destination never aborts, and gives up only before such a list. */
  lemma {:induction false} SkipfailEndsStuck(c: Config, s: Copy, os: seq<Outcome>)
    requires Valid(c, s) && IsSkipfail(c) && RoomFor(c, s)
    ensures var r := Run(c, s, os);
            && r.ending != Aborted && RoomFor(c, r.final) && (r.ending == Finished ==> r.final.num >= r.final.den)
            && (r.ending == GaveUp ==>
                  r.final.num < r.final.den && r.final.sched.zones != [] && r.final.sched.current == None
                  && AllStuck(c, r.final.sched.zones))
    decreases |os|
  {
    hide UseResults, Choose, SkipfailChoose;
    if s.num < s.den && os != [] {
      HasZones(c, s);
      SkipfailIsChosen(c, s.sched);
      var r := Step(c, s, os[0]);
      if Choose(c, s.sched).Some? {
        ProcessOk(c, s, os[0]);
        SkipfailEndsStuck(c, r.next, os[1..]);
      }
    }
  }

  /** Wherever a skipfail run stands, it gives up at the next block if and only if it has no current
      zone and the list is such a one. */
  lemma SkipfailStopsExactly(c: Config, s: Copy, os: seq<Outcome>, o: Outcome)
    requires Valid(c, s) && IsSkipfail(c) && RoomFor(c, s) && Run(c, s, os).ending == Interrupted
    ensures var f := Run(c, s, os).final;
            Run(c, s, os + [o]).ending == GaveUp <==> f.sched.current == None && AllStuck(c, f.sched.zones)
  {
    hide Run;
    var f := Run(c, s, os).final;
    SkipfailEndsStuck(c, s, os);
    InterruptedEarly(c, s, os);
    RunInPieces(c, s, os, [o]);
    HasZones(c, f);
    SkipfailEndsNow(c, f, o);
  }

  lemma SkipfailEndsNow(c: Config, s: Copy, o: Outcome)
    requires Valid(c, s) && IsSkipfail(c) && RoomFor(c, s) && s.num < s.den && |s.sched.zones| > 0
    ensures Run(c, s, [o]).ending == GaveUp <==> s.sched.current == None && AllStuck(c, s.sched.zones)
  {
    hide UseResults, Choose;
    SkipfailIsChosen(c, s.sched);
    if Choose(c, s.sched).Some? {
      ProcessOk(c, s, o);
      if s.sched.current == None {
        var i := FirstLive(c, s.sched.zones, 0);
        assert !Stuck(c, s.sched.zones, i);
      }
    }
  }
}
