/** The whole-space display over whole copies: without a journal, through the ring, and where it goes
    wrong. */
module WholeSpaceRuns {
  import opened CopyTypes
  import opened ReadStrategies
  import opened ZoneCover
  import opened JournalParser
  import opened CopyRun
  import opened CopyBounds
  import opened CopyHistory
  import opened CopyOrder
  import opened CopyResume
  import opened CopyAlignment
  import opened CopyProcedure
  import opened ResumeRoom
  import opened ResumeStage
  import opened ResumeLimits
  import opened WholeSpace
  import ReportRing

  // ----- where single-sector errors come from -----

  /** Only a block of one sector is journalled as a single-sector error: the last one of a disk. */
  ghost predicate SectorErrorsLast(journal: seq<SectorStatus>) {
    forall k | 0 <= k < |journal| && journal[k] == SectorReadError ::
      k == |journal| - 1 && |journal| % SECTORS_AT_ONCE == 1
  }

  lemma StepSectorErrors(c: Config, s: Copy, o: Outcome)
    requires Neat(c, s) && s.num < s.den && Step(c, s, o).Done? && SectorErrorsLast(s.journal)
    ensures SectorErrorsLast(Step(c, s, o).next.journal)
  {
    hide Step, Uniform, BlockAligned;
    StepNeat(c, s, o);
    var r := Step(c, s, o);
    StepKeepsLength(c, s, o);
    forall k | 0 <= k < |r.next.journal| && r.next.journal[k] == SectorReadError
      ensures k == |s.journal| - 1 && |s.journal| % SECTORS_AT_ONCE == 1
    {
      StepEffect(c, s, o, k);
    }
  }

  lemma StepKeepsLength(c: Config, s: Copy, o: Outcome)
    requires Valid(c, s) && s.num < s.den && Step(c, s, o).Done?
    ensures |Step(c, s, o).next.journal| == |s.journal|
  {
    hide Choose, UseResults;
    HasZones(c, s);
    ProcessOk(c, s, o);
  }

  lemma {:induction false} RunSectorErrors(c: Config, s: Copy, os: seq<Outcome>)
    requires Neat(c, s) && SectorErrorsLast(s.journal)
    ensures SectorErrorsLast(Run(c, s, os).final.journal)
    decreases |os|
  {
    hide Step, Uniform, BlockAligned, SectorErrorsLast;
    if s.num < s.den && os != [] {
      var r := Step(c, s, os[0]);
      if r.Done? {
        StepNeat(c, s, os[0]);
        StepSectorErrors(c, s, os[0]);
        if !r.abort { RunSectorErrors(c, r.next, os[1..]); }
      } else {
        RefusedKeeps(c, s, os[0]);
      }
    }
  }

  /** However many sessions write a journal, a single-sector error in it is the last sector of a disk
      of 256 n + 1 sectors; on any other disk the import shows what the journal says. */
  lemma {:induction false} SessionsSectorErrors(sessions: seq<Session>, s: Copy)
    requires |s.journal| == |s.dst| && forall i | 0 <= i < |sessions| :: SessionOk(sessions[i], |s.journal|)
    requires forall i | 0 <= i < |sessions| :: AlignedEnd(sessions[i].config, |s.journal|)
    requires Uniform(s.journal) && SectorErrorsLast(s.journal)
    ensures SectorErrorsLast(RunSessions(sessions, s).1.journal)
    ensures |s.journal| % SECTORS_AT_ONCE != 1 ==> NoSectorError(RunSessions(sessions, s).1.journal)
    decreases |sessions|
  {
    hide Run, Neat, Uniform;
    if sessions != [] {
      assert SessionOk(sessions[0], |s.journal|) && AlignedEnd(sessions[0].config, |s.journal|);
      var c := sessions[0].config;
      ReopenNeat(c, s);
      RunNeat(c, Reopen(s), sessions[0].outcomes);
      RunKeepsSizes(c, Reopen(s), sessions[0].outcomes);
      RunSectorErrors(c, Reopen(s), sessions[0].outcomes);
      SessionsSectorErrors(sessions[1..], Run(c, Reopen(s), sessions[0].outcomes).final);
    }
  }

  // ----- a copy without a journal -----

  function Clear(size: nat): seq<int> {
    seq(Needed(SECTORS_AT_ONCE, size), _ => 0)
  }

  const NOTHING_MISSED := Counters(0, 0, 0)

  lemma ClearSummarises(size: nat)
    ensures Needed(SECTORS_AT_ONCE, size) >= 0
    ensures Summarises(Clear(size), Counters(size, 0, 0), Blank(size), Blank(size), NOTHING_MISSED)
  {
    CountConstant(Blank(size), Unseen, Unseen);
    CountConstant(Blank(size), Good, Unseen);
    CountConstant(Blank(size), Bad, Unseen);
  }

  lemma FreshNeat(c: Config, dst: seq<Content>, dstLength: int)
    requires ConfigOk(c) && |dst| == |c.source| > 0 && AlignedEnd(c, |dst|)
    ensures Neat(c, FreshCopy(dst, dstLength)) && FreshCopy(dst, dstLength).journal == Blank(|dst|)
    ensures Valid(c, FreshCopy(dst, dstLength)) && NoSectorError(Blank(|dst|))
  {
    hide Neat, Valid, Reopen;
    BlankIsUniform(|dst|);
    FreshCopyValid(c, dst, dstLength);
    ReopenNeat(c, Left(Blank(|dst|), dst, dstLength));
  }

  lemma BlankIsUniform(size: nat)
    ensures Uniform(Blank(size)) && NoSectorError(Blank(size))
  {
  }

  /** Without a journal nothing is imported and nothing missed: the display is true at the end if and
      only if the copy has not ended with a refused block. */
  lemma NoJournalThenRun(c: Config, dst: seq<Content>, dstLength: int, os: seq<Outcome>)
    requires ConfigOk(c) && |dst| == |c.source| > 0 && AlignedEnd(c, |dst|) && FullWrites(os)
    ensures Valid(c, FreshCopy(dst, dstLength)) && Needed(SECTORS_AT_ONCE, |dst|) >= 0
    ensures var r := Run(c, FreshCopy(dst, dstLength), os);
            var shown := Follow(Clear(|dst|), Counters(|dst|, 0, 0), Handed(r, os, NO_REPORT));
            DisplayTrue(shown.0, shown.1, r.final.journal, NOTHING_MISSED) <==> r.ending != GaveUp
  {
    hide Run, Follow, Neat, Summarises, DisplayTrue, Handed, Valid, Uniform, Blank;
    ClearSummarises(|dst|);
    FreshNeat(c, dst, dstLength);
    DisplayExactly(c, FreshCopy(dst, dstLength), os, Clear(|dst|), Counters(|dst|, 0, 0), Blank(|dst|), NOTHING_MISSED);
  }

  // ----- through the ring -----

  /** The reports reach the display through the ring: if no fill found it too full, then once the
      drawing thread has gone the display is true exactly when `ImportThenRun` says so. */
  lemma ThroughTheRing(c: Config, s: Copy, os: seq<Outcome>, map_: seq<int>,
                       slots: seq<ReportRing.Cell<Report>>, actions: seq<ReportRing.Action<Report>>)
    requires ConfigOk(c) && |s.journal| == |s.dst| == |c.source| && AlignedEnd(c, |s.journal|)
    requires Uniform(s.journal) && FullWrites(os) && |map_| == Needed(SECTORS_AT_ONCE, |s.journal|)
    requires Sampled(map_, s.journal) && |slots| == ReportRing.SLOTS && Valid(c, Reopen(s))
    requires ReportRing.FillsFit(ReportRing.Initial(slots), actions)
    requires var f := ReportRing.RunActions(ReportRing.Initial(slots), actions);
             f.reader.Exited? && f.produced == Handed(Run(c, Reopen(s), os), os, NO_REPORT)
    ensures var f, r := ReportRing.RunActions(ReportRing.Initial(slots), actions), Run(c, Reopen(s), os);
            && (forall i | 0 <= i < |f.consumed| :: f.consumed[i].Whole?)
            && var shown := Follow(map_, Imported(s.journal, |map_|), ReportRing.Contents(f.consumed));
               DisplayTrue(shown.0, shown.1, r.final.journal, AllMissed(s.journal)) <==>
               && NoSectorError(s.journal)
               && (r.ending != GaveUp || (r.tasks == [] && |s.journal| > 0 && s.journal[0] == ReadOk))
  {
    hide Run, Follow, Imported, DisplayTrue, Handed, Uniform, Sampled;
    ReportRing.InitialInv(slots);
    ReportRing.RingDelivers(ReportRing.Initial(slots), actions);
    var f := ReportRing.RunActions(ReportRing.Initial(slots), actions);
    assert ReportRing.Contents(f.consumed) == f.produced;
    ImportThenRun(c, s, os, map_);
  }

  /** For every copy some interleaving meets that condition. */
  lemma ThroughTheRingHappens(c: Config, s: Copy, os: seq<Outcome>, slots: seq<ReportRing.Cell<Report>>)
    returns (actions: seq<ReportRing.Action<Report>>)
    requires Valid(c, s) && |slots| == ReportRing.SLOTS
    ensures ReportRing.FillsFit(ReportRing.Initial(slots), actions)
    ensures var f := ReportRing.RunActions(ReportRing.Initial(slots), actions);
            f.reader.Exited? && f.produced == Handed(Run(c, s, os), os, NO_REPORT)
  {
    actions := ReportRing.TakingTurns(Handed(Run(c, s, os), os, NO_REPORT));
    ReportRing.SomeRunDelivers(slots, Handed(Run(c, s, os), os, NO_REPORT));
  }

  // ----- two concrete copies -----

  lemma SkipfailTasks(c: Config, s: Copy, o: Outcome)
    requires c.strategy == Skipfail && c.skipBlocks == 1 && Valid(c, s) && s.num < s.den && RoomFor(c, s)
    requires s.sched == FreshSched(512) && |s.journal| == 512
    ensures Run(c, s, [ReadFailed, o]).ending == GaveUp && Run(c, s, [ReadFailed, o]).tasks == [Task(0, 256)]
  {
    hide Run, Step, Valid, Mark;
    SkipFirstFailure(c, s, 512);
    var next := Step(c, s, ReadFailed).next;
    assert AllStuck(c, next.sched.zones);
    HasTotal(c, next);
    SkipfailEndsNow(c, next, o);
    SkipfailIsChosen(c, next.sched);
    SkipfailGivesUpExactly(c, next.sched);
    GivesUpAtOnce(c, next, [o]);
    RunCons(c, s, ReadFailed, [o]);
    assert [ReadFailed] + [o] == [ReadFailed, o] && [Task(0, 256)] + [] == [Task(0, 256)];
  }

  /** skipfail with skip_blocks 1 on a disk of 512 sectors whose first read fails: it gives up, and the
      display counts 512 sectors with errors where there are 256. */
  lemma SkipfailMiscounted(c: Config, dst: seq<Content>, o: Outcome)
    requires c.strategy == Skipfail && c.skipBlocks == 1 && |dst| == |c.source| == 512
    ensures Valid(c, FreshCopy(dst, 512)) && Sampled([0, 0], Blank(512))
            && Imported(Blank(512), 2) == Counters(256, 0, 0)
    ensures var r := Run(c, FreshCopy(dst, 512), [ReadFailed, o]);
            && r.ending == GaveUp
            && Follow([0, 0], Counters(256, 0, 0), Handed(r, [ReadFailed, o], NO_REPORT)) ==
                 ([2, 0], Counters(-256, 0, 512))
  {
    hide Run, Valid, Follow, Needed, Mark, WriteDst;
    FreshCopyValid(c, dst, 512);
    SkipfailTasks(c, FreshCopy(dst, 512), o);
    ImportTwo();
    TwoReports(Run(c, FreshCopy(dst, 512), [ReadFailed, o]), [ReadFailed, o]);
  }

  lemma TwoReports(r: RunResult, os: seq<Outcome>)
    requires r.tasks == [Task(0, 256)] && r.ending == GaveUp && |os| == 2 && os[0] == ReadFailed
    ensures Follow([0, 0], Counters(256, 0, 0), Handed(r, os, NO_REPORT)) == ([2, 0], Counters(-256, 0, 512))
  {
    var report := Report(0, 256, true);
    assert Handed(r, os, NO_REPORT) == [report] + [report];
    FollowAppend([0, 0], Counters(256, 0, 0), [], report);
    FollowAppend([0, 0], Counters(256, 0, 0), [report], report);
    assert [] + [report] == [report];
    assert [0, 0][0 := 2] == [2, 0] && [2, 0][0 := 2] == [2, 0];
    assert Apply([0, 0], Counters(256, 0, 0), report) == ([2, 0], Counters(0, 0, 256));
    assert Apply([2, 0], Counters(0, 0, 256), report) == ([2, 0], Counters(-256, 0, 512));
  }

  lemma ImportTwo()
    ensures Sampled([0, 0], Blank(512)) && Imported(Blank(512), 2) == Counters(256, 0, 0)
  {
    assert Imported(Blank(512), 1) == Counters(256, 0, 0);
  }

  /** A disk of 257 sectors whose last one cannot be read: opened again, the display shows it as copied
      without errors. */
  lemma LastSectorShownGood(c: Config, dst: seq<Content>)
    requires c.strategy == Plain && ConfigOk(c) && |dst| == |c.source| == 257
    ensures Valid(c, FreshCopy(dst, 257))
    ensures var journal := Run(c, FreshCopy(dst, 257), [Copied, ReadFailed]).final.journal;
            && |journal| == 257 && journal[256] == SectorReadError
            && forall map_: seq<int> | |map_| == Needed(SECTORS_AT_ONCE, 257) && Sampled(map_, journal) ::
                 |map_| == 2 && ClassOfCode(map_[1]) == Good && !MapTrue(map_, journal)
  {
    hide Run, Needed, Sampled, MapTrue, ClassOfCode;
    LastSectorFails(c, dst);
    var journal := Run(c, FreshCopy(dst, 257), [Copied, ReadFailed]).final.journal;
    forall map_: seq<int> | |map_| == Needed(SECTORS_AT_ONCE, 257) && Sampled(map_, journal)
      ensures |map_| == 2 && ClassOfCode(map_[1]) == Good && !MapTrue(map_, journal)
    {
      DrawnGood(map_, journal);
    }
  }

  lemma LastSectorFails(c: Config, dst: seq<Content>)
    requires c.strategy == Plain && ConfigOk(c) && |dst| == |c.source| == 257
    ensures Valid(c, FreshCopy(dst, 257))
    ensures var journal := Run(c, FreshCopy(dst, 257), [Copied, ReadFailed]).final.journal;
            |journal| == 257 && journal[256] == SectorReadError
  {
    hide Run, Step, Mark, Valid, Blank;
    FreshCopyValid(c, dst, 257);
    var start := FreshCopy(dst, 257);
    PlainOne(c, start, Zone(0, 257, false, false));
    var s := Step(c, start, Copied).next;
    StepKeepsLength(c, start, Copied);
    PlainLast(c, s);
    RunCons(c, start, Copied, [ReadFailed]);
    assert [Copied] + [ReadFailed] == [Copied, ReadFailed];
  }

  lemma DrawnGood(map_: seq<int>, journal: seq<SectorStatus>)
    requires |journal| == 257 && journal[256] == SectorReadError
    requires |map_| == Needed(SECTORS_AT_ONCE, 257) && Sampled(map_, journal)
    ensures |map_| == 2 && ClassOfCode(map_[1]) == Good && !MapTrue(map_, journal)
  {
    assert map_[1] == CodeOf(journal[SECTORS_AT_ONCE * 1]);
    WrongCell(map_, journal, 256);
  }

  lemma WrongCell(map_: seq<int>, journal: seq<SectorStatus>, k: int)
    requires 0 <= k < |journal| && 0 <= k / SECTORS_AT_ONCE < |map_|
    requires ClassOfCode(map_[k / SECTORS_AT_ONCE]) != ClassOf(journal[k])
    ensures !MapTrue(map_, journal)
  {
  }

  lemma PlainLast(c: Config, s: Copy)
    requires c.strategy == Plain && Valid(c, s) && s.num < s.den && RoomFor(c, s) && |s.journal| == 257
    requires s.sched.zones == [Zone(256, 257, false, false)]
    ensures var journal := Run(c, s, [ReadFailed]).final.journal; |journal| == 257 && journal[256] == SectorReadError
  {
    hide Step, Mark;
    var chosen := s.sched.(current := Some(0));
    StepIs(c, s, ReadFailed, chosen);
    assert Run(c, s, [ReadFailed]).final == Step(c, s, ReadFailed).next;
  }
}
