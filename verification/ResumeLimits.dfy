/** Concrete copies for which stopping and resuming is visible. */
module ResumeLimits {
  import opened CopyTypes
  import opened ReadStrategies
  import opened ZoneCover
  import opened JournalParser
  import opened CopyRun
  import opened CopyBounds
  import opened CopyHistory
  import opened CopyResume
  import opened ResumeStage

  // ----- skipfail with reverse reading -----

  /** The scheduler after a jump whose backward read failed at once. */
  const SKIP_LIVE := [Zone(256, 512, true, true), Zone(768, 2048, false, false)]
  const SKIP_PARSED := [Zone(256, 512, true, true), Zone(768, 2048, true, false)]

  function SkipJournal(): seq<SectorStatus> {
    seq(2048, k => if k < 256 || 512 <= k < 768 then BlockReadError else Unread)
  }

  lemma SkipJournalParses()
    ensures Parse(SkipJournal()).zones == SKIP_PARSED
  {
    SkipTracks();
    SkipFlags();
    hide SkipJournal, Tracks, BeginFlagsMatch, EndFlagsMatch;
    ParseIs(SKIP_PARSED, SkipJournal());
  }

  lemma SkipTracks()
    ensures Tracks(SKIP_PARSED, SkipJournal())
  {
    var j, z := SkipJournal(), SKIP_PARSED;
    forall k | 0 <= k < 2048 ensures j[k] == Unread <==> Covered(z, k) {
      assert InZone(z[0], k) <==> 256 <= k < 512;
      assert InZone(z[1], k) <==> 768 <= k < 2048;
    }
  }

  lemma SkipFlags()
    ensures BeginFlagsMatch(SKIP_PARSED, SkipJournal()) && EndFlagsMatch(SKIP_PARSED, SkipJournal())
  {
  }

  lemma SkipFirst(c: Config, size: int)
    requires c.strategy == Skipfail
    ensures SkipfailChoose(c, FreshSched(size)) == Some(Sched([Zone(0, size, false, false)], Some(0), false, 0))
  {
    FirstLiveIs(c, FreshSched(size).zones, 0);
  }

  lemma SkipSecond(c: Config)
    requires c.strategy == Skipfail && c.skipBlocks == 2
    ensures SkipfailChoose(c, Sched([Zone(256, 2048, true, false)], None, false, 0)) ==
            Some(Sched([Zone(256, 768, true, false), Zone(768, 2048, false, false)], Some(0), true, 0))
  {
    var z := [Zone(256, 2048, true, false)];
    FirstLiveIs(c, z, 0);
    assert SplitZone(z, 0, 768) == [Zone(256, 768, true, false), Zone(768, 2048, false, false)];
  }

  lemma SkipLiveTask(c: Config)
    requires c.strategy == Skipfail && c.skipBlocks == 2
    ensures NextTask(c, Sched(SKIP_LIVE, None, true, 0)) == Some(Task(768, 256))
  {
    FirstLiveIs(c, SKIP_LIVE, 1);
  }

  lemma SkipParsedTask(c: Config)
    requires c.strategy == Skipfail && c.skipBlocks == 2
    ensures NextTask(c, Sched(SKIP_PARSED, None, false, 0)) == Some(Task(1024, 256))
  {
    FirstLiveIs(c, SKIP_PARSED, 1);
    assert SplitZone(SKIP_PARSED, 1, 1280) ==
           [SKIP_PARSED[0], Zone(768, 1280, true, false), Zone(1280, 2048, false, false)];
  }

  function SkipStart(dst: seq<Content>): Copy {
    Copy(FreshSched(2048), Blank(2048), dst, 2048, 2048, 0, 2048)
  }

  lemma SkipStartValid(c: Config, dst: seq<Content>)
    requires c.strategy == Skipfail && c.skipBlocks == 2 && |dst| == |c.source| == 2048
    ensures Valid(c, SkipStart(dst))
  {
    hide Valid;
    FreshIsBlankResume(Blank(2048));
    ReopenValid(c, SkipStart(dst));
    assert SkipStart(dst) == Reopen(SkipStart(dst));
  }

  lemma SkipFirstResult(c: Config, size: int)
    requires c.strategy == Skipfail && size > 256
    ensures var s := Sched([Zone(0, size, false, false)], Some(0), false, 0);
            && Proceed(s) == Task(0, 256)
            && UseResults(c, s, 256, true) == Sched([Zone(256, size, true, false)], None, false, 0)
  {
    assert [Zone(0, size, false, false)][0 := Zone(256, size, true, false)] == [Zone(256, size, true, false)];
  }

  lemma SkipFirstFailure(c: Config, s: Copy, size: int)
    requires c.strategy == Skipfail && RoomFor(c, s) && size > 256
    requires Valid(c, s) && s.num < s.den && s.sched == FreshSched(size) && |s.journal| == size
    ensures var r := Step(c, s, ReadFailed);
            && r.Done? && r.task == Task(0, 256) && !r.abort
            && r.next.num == s.num + 256 && r.next.den == s.den && r.next.dstEnd == s.dstEnd
            && r.next.sched == Sched([Zone(256, size, true, false)], None, false, 0)
            && r.next.journal == Mark(s.journal, Task(0, 256), BlockReadError)
  {
    hide Choose, SkipfailChoose, Valid, Step, Mark, UseResults, Proceed, Total;
    SkipFirst(c, size);
    SkipFirstResult(c, size);
    SkipfailIsChosen(c, s.sched);
    StepIs(c, s, ReadFailed, Sched([Zone(0, size, false, false)], Some(0), false, 0));
  }

  lemma SkipSecondFailure(c: Config, s: Copy)
    requires c.strategy == Skipfail && c.skipBlocks == 2 && RoomFor(c, s)
    requires Valid(c, s) && s.num < s.den && s.sched == Sched([Zone(256, 2048, true, false)], None, false, 0)
    requires |s.journal| == 2048
    ensures var r := Step(c, s, ReadFailed);
            && r.Done? && !r.abort && r.next.num == s.num + 256 && r.next.den == s.den && r.next.dstEnd == s.dstEnd
            && r.next.sched == Sched(SKIP_LIVE, None, true, 0)
            && r.next.journal == Mark(s.journal, Task(512, 256), BlockReadError)
  {
    hide Choose, SkipfailChoose, Valid, Step, Mark;
    SkipSecond(c);
    SkipfailIsChosen(c, s.sched);
    StepIs(c, s, ReadFailed, Sched([Zone(256, 768, true, false), Zone(768, 2048, false, false)], Some(0), true, 0));
  }

  lemma SkipJournalIs()
    ensures Mark(Mark(Blank(2048), Task(0, 256), BlockReadError), Task(512, 256), BlockReadError) == SkipJournal()
  {
  }

  /** skipfail on a disk of 2048 sectors, two failed reads, then a stop: the running copy would
      go on forward at sector 768, the resumed one jumps ahead and reads backward at 1024. */
  lemma SkipfailResumeDiffers(c: Config, dst: seq<Content>)
    requires c.strategy == Skipfail && c.skipBlocks == 2 && |dst| == |c.source| == 2048
    ensures Valid(c, SkipStart(dst))
    ensures var r := Run(c, SkipStart(dst), [ReadFailed, ReadFailed]);
            && r.ending == Interrupted && |r.final.sched.zones| > 0 && CursorOk(r.final.sched)
            && |Reopen(r.final).sched.zones| > 0
            && NextTask(c, r.final.sched) == Some(Task(768, 256))
            && NextTask(c, Reopen(r.final).sched) == Some(Task(1024, 256))
  {
    hide Step, Valid, NextTask, Parse, SkipJournal, Run, Mark;
    SkipStartValid(c, dst);
    var start := SkipStart(dst);
    SkipFirstFailure(c, start, 2048);
    var s1 := Step(c, start, ReadFailed).next;
    SkipSecondFailure(c, s1);
    SkipJournalIs();
    var s2 := Step(c, s1, ReadFailed).next;
    StopsAt(c, s2);
    RunCons(c, s1, ReadFailed, []);
    RunCons(c, start, ReadFailed, [ReadFailed]);
    assert [ReadFailed] + [] == [ReadFailed] && [ReadFailed] + [ReadFailed] == [ReadFailed, ReadFailed];
    SkipJournalParses();
    SkipLiveTask(c);
    SkipParsedTask(c);
  }

  // ----- smart with reverse reading -----

  const DISK := 1500160
  const MIDDLE := 750080

  const SMART_1 := Sched([Zone(256, DISK, true, false)], None, false, 0)
  const SMART_2 := Sched([Zone(256, DISK - 256, true, true)], None, true, 0)
  const SMART_LIVE := Sched([Zone(256, MIDDLE - 256, true, true), Zone(MIDDLE, DISK - 256, false, true)], None, true, 0)
  const SMART_PARSED := [Zone(256, MIDDLE - 256, true, true), Zone(MIDDLE, DISK - 256, true, true)]

  function SmartJournal(): seq<SectorStatus> {
    seq(DISK, k => if k < 256 || MIDDLE - 256 <= k < MIDDLE || DISK - 256 <= k then BlockReadError else Unread)
  }

  lemma SmartJournalParses()
    ensures Parse(SmartJournal()).zones == SMART_PARSED
  {
    var j, z := SmartJournal(), SMART_PARSED;
    forall k | 0 <= k < DISK ensures j[k] == Unread <==> Covered(z, k) {
      assert InZone(z[0], k) <==> 256 <= k < MIDDLE - 256;
      assert InZone(z[1], k) <==> MIDDLE <= k < DISK - 256;
    }
    ParseIs(z, j);
  }

  /** The three choices before the stop, and what a failed read makes of each. */
  lemma SmartFirst(c: Config)
    requires c.strategy == Smart
    ensures var s := Sched([Zone(0, DISK, false, false)], Some(0), false, 0);
            && SmartChoose(c, FreshSched(DISK)) == Some(s)
            && Proceed(s) == Task(0, 256) && UseResults(c, s, 256, true) == SMART_1
  {
    FirstLiveIs(c, FreshSched(DISK).zones, 0);
    assert [Zone(0, DISK, false, false)][0 := Zone(256, DISK, true, false)] == SMART_1.zones;
  }

  lemma SmartSecond(c: Config)
    requires c.strategy == Smart
    ensures var s := SMART_1.(current := Some(0), reverse := true);
            && SmartChoose(c, SMART_1) == Some(s)
            && Proceed(s) == Task(DISK - 256, 256) && UseResults(c, s, 256, true) == SMART_2
  {
    FirstLiveIs(c, SMART_1.zones, 0);
    assert SMART_1.zones[0 := Zone(256, DISK - 256, true, true)] == SMART_2.zones;
  }

  lemma SmartThird(c: Config)
    requires c.strategy == Smart
    ensures var s := Sched([Zone(256, MIDDLE, true, false), Zone(MIDDLE, DISK - 256, false, true)], Some(0), true, 0);
            && SmartChoose(c, SMART_2) == Some(s)
            && Proceed(s) == Task(MIDDLE - 256, 256) && UseResults(c, s, 256, true) == SMART_LIVE
  {
    FirstLiveIs(c, SMART_2.zones, 1);
    SmartJumpLands(c, SMART_2, 0);
    assert MidPoint(SMART_2.zones[0]) == MIDDLE;
    assert SplitZone(SMART_2.zones, 0, MIDDLE) ==
           [Zone(256, MIDDLE, true, false), Zone(MIDDLE, DISK - 256, false, true)];
    assert [Zone(256, MIDDLE, true, false), Zone(MIDDLE, DISK - 256, false, true)][0 := Zone(256, MIDDLE - 256, true,
           true)] == SMART_LIVE.zones;
  }

  lemma SmartFailure(c: Config, s: Copy, chosen: Sched, next: Sched, t: Task)
    requires c.strategy == Smart && RoomFor(c, s) && Valid(c, s) && s.num < s.den
    requires |s.sched.zones| > 0 && CursorOk(s.sched)
    requires SmartChoose(c, s.sched) == Some(chosen) && chosen.current.Some? && chosen.current.value < |chosen.zones|
    requires Proceed(chosen) == t && t.sectors == 256 && UseResults(c, chosen, 256, true) == next
    requires 0 <= t.lba && t.lba + 256 <= |s.journal|
    ensures var r := Step(c, s, ReadFailed);
            && r.Done? && !r.abort && r.next.sched == next && r.task == t && Valid(c, r.next)
            && r.next.num == s.num + 256 && r.next.den == s.den && r.next.dstEnd == s.dstEnd
            && r.next.journal == Mark(s.journal, t, BlockReadError)
  {
    hide Choose, SmartChoose, Valid, Step, Mark, UseResults, Proceed, Total;
    SmartIsChosen(c, s.sched);
    StepIs(c, s, ReadFailed, chosen);
  }

  lemma SmartTasks(c: Config)
    requires c.strategy == Smart
    ensures NextTask(c, SMART_LIVE) == Some(Task(MIDDLE, 256))
    ensures NextTask(c, Sched(SMART_PARSED, None, false, 0)) == Some(Task(256, 256))
  {
    FirstLiveIs(c, SMART_LIVE.zones, 1);
    FirstLiveIs(c, SMART_PARSED, 2);
  }

  function SmartStart(dst: seq<Content>): Copy {
    Copy(FreshSched(DISK), Blank(DISK), dst, DISK, DISK, 0, DISK)
  }

  lemma SmartStartValid(c: Config, dst: seq<Content>)
    requires c.strategy == Smart && ConfigOk(c) && |dst| == |c.source| == DISK
    ensures Valid(c, SmartStart(dst))
  {
    hide Valid;
    FreshIsBlankResume(Blank(DISK));
    ReopenValid(c, SmartStart(dst));
    assert SmartStart(dst) == Reopen(SmartStart(dst));
  }

  lemma SmartJournalIs(dst: seq<Content>)
    ensures var j1 := Mark(SmartStart(dst).journal, Task(0, 256), BlockReadError);
            var j2 := Mark(j1, Task(DISK - 256, 256), BlockReadError);
            Mark(j2, Task(MIDDLE - 256, 256), BlockReadError) == SmartJournal()
  {
  }

  /** smart on a disk of 1500160 sectors, three failed reads, then a stop: the running copy would
      go on forward from the middle, the resumed one sees only defective borders and small zones
      and goes back to the front. */
  lemma SmartResumeDiffers(c: Config, dst: seq<Content>)
    requires c.strategy == Smart && ConfigOk(c) && |dst| == |c.source| == DISK
    ensures Valid(c, SmartStart(dst))
    ensures var r := Run(c, SmartStart(dst), [ReadFailed, ReadFailed, ReadFailed]);
            && r.ending == Interrupted && |r.final.sched.zones| > 0 && CursorOk(r.final.sched)
            && |Reopen(r.final).sched.zones| > 0
            && NextTask(c, r.final.sched) == Some(Task(MIDDLE, 256))
            && NextTask(c, Reopen(r.final).sched) == Some(Task(256, 256))
  {
    hide Step, Valid, NextTask, Parse, SmartJournal, Run, Mark, SmartChoose, UseResults, Proceed;
    SmartStartValid(c, dst);
    SmartFirst(c);
    SmartSecond(c);
    SmartThird(c);
    var s0 := SmartStart(dst);
    SmartFailure(c, s0, SmartChoose(c, s0.sched).value, SMART_1, Task(0, 256));
    var s1 := Step(c, s0, ReadFailed).next;
    SmartFailure(c, s1, SmartChoose(c, s1.sched).value, SMART_2, Task(DISK - 256, 256));
    var s2 := Step(c, s1, ReadFailed).next;
    SmartFailure(c, s2, SmartChoose(c, s2.sched).value, SMART_LIVE, Task(MIDDLE - 256, 256));
    var s3 := Step(c, s2, ReadFailed).next;
    SmartJournalIs(dst);
    StopsAt(c, s3);
    RunCons(c, s2, ReadFailed, []);
    RunCons(c, s1, ReadFailed, [ReadFailed]);
    RunCons(c, s0, ReadFailed, [ReadFailed, ReadFailed]);
    assert [ReadFailed] + [] == [ReadFailed] && [ReadFailed] + [ReadFailed] == [ReadFailed, ReadFailed];
    assert [ReadFailed] + [ReadFailed, ReadFailed] == [ReadFailed, ReadFailed, ReadFailed];
    SmartJournalParses();
    SmartTasks(c);
  }

  // ----- smart_noreverse in stage 1 -----

  const SMALL := 999
  const LONG := 1000 * 1000 + 1

  /** 999 unread single sectors between errors, then a long unread rest. */
  function LossJournal(): seq<SectorStatus> {
    seq(2 * SMALL + 1 + LONG, k => if k <= 2 * SMALL && k % 2 == 0 then BlockReadError else Unread)
  }

  function LossZones(): seq<Zone> {
    seq(SMALL + 1, i => if i < SMALL then Zone(2 * i + 1, 2 * i + 2, true, true)
                        else Zone(2 * SMALL + 1, 2 * SMALL + 1 + LONG, true, false))
  }

  lemma LossTracks()
    ensures Tracks(LossZones(), LossJournal())
  {
    var z, j := LossZones(), LossJournal();
    forall k | 0 <= k < |j| ensures j[k] == Unread <==> Covered(z, k) {
      if j[k] == Unread {
        var i := if k < 2 * SMALL then k / 2 else SMALL;
        assert InZone(z[i], k);
      }
    }
  }

  lemma LossFlags()
    ensures BeginFlagsMatch(LossZones(), LossJournal()) && EndFlagsMatch(LossZones(), LossJournal())
  {
  }

  lemma LossParses()
    ensures Parse(LossJournal()).zones == LossZones()
  {
    LossTracks();
    LossFlags();
    hide LossZones, LossJournal, Tracks, BeginFlagsMatch, EndFlagsMatch;
    ParseIs(LossZones(), LossJournal());
  }

  lemma LossRest(i: nat)
    requires i < SMALL
    ensures |LossZones()| == SMALL + 1
    ensures LossZones()[1..][i] == if i < SMALL - 1 then Zone(2 * i + 3, 2 * i + 4, true, true)
                                   else Zone(2 * SMALL + 1, 2 * SMALL + 1 + LONG, true, false)
  {
  }

  /** What is left after the first of the single sectors. */
  lemma LossJumps()
    ensures |LossZones()| == SMALL + 1 && JumpPossible(LossZones()[1..])
  {
    hide LossZones, LargestOf;
    LossRest(0);
    var z := LossZones()[1..];
    var k := LargestOf(z, |z|);
    forall i | 0 <= i < |z| ensures z[i].beginBad { LossRest(i); }
    LossRest(SMALL - 1);
    assert Length(z[SMALL - 1]) <= Length(z[k]);
  }

  lemma LossChoice(c: Config)
    requires c.strategy == SmartNoReverse
    ensures SmartChoose(c, Sched(LossZones(), None, false, 0)) == Some(Sched(LossZones(), Some(0), false, 1))
  {
    hide LargestOf;
    var z := LossZones();
    FirstLiveIs(c, z, |z|);
    StuckSmart(c, Sched(z, None, false, 0));
  }

  lemma StuckSmart(c: Config, s: Sched)
    requires c.strategy == SmartNoReverse && s.current == None && s.stage == 0 && |s.zones| >= MAX_ZONES
    requires FirstLive(c, s.zones, 0) == |s.zones|
    ensures SmartChoose(c, s) == Some(s.(stage := 1, current := Some(0), reverse := false))
  {
    hide FirstLive, LargestOf;
  }

  function LossStart(dst: seq<Content>): Copy {
    Reopen(Copy(FreshSched(0), LossJournal(), dst, |dst|, |dst|, 0, 0))
  }

  lemma LossStartOk(c: Config, dst: seq<Content>)
    requires c.strategy == SmartNoReverse && ConfigOk(c) && |dst| == |c.source| == |LossJournal()|
    ensures RoomFor(c, LossStart(dst))
    ensures Resumable(c, LossStart(dst)) && LossStart(dst).sched == Sched(LossZones(), None, false, 0)
  {
    hide LossJournal, LossZones, Parse;
    ReopenResumable(c, Copy(FreshSched(0), LossJournal(), dst, |dst|, |dst|, 0, 0));
    LossParses();
  }

  lemma LossRun(c: Config, s: Copy)
    requires c.strategy == SmartNoReverse && RoomFor(c, s) && Valid(c, s)
             && s.sched == Sched(LossZones(), None, false, 0)
    ensures var r := Run(c, s, [Copied]);
            r.ending == Interrupted && r.final.sched == Sched(LossZones()[1..], None, false, 1)
  {
    hide Valid, Step, Run, LossZones, Choose, SmartChoose;
    LossZero();
    LossChoice(c);
    SmartIsChosen(c, s.sched);
    LossFirstSector(c, s);
    StopsAt(c, Step(c, s, Copied).next);
    RunCons(c, s, Copied, []);
    assert [Copied] + [] == [Copied];
  }

  /** A journal from which smart_noreverse starts with 1000 zones, goes over to stage 1, reads one
      sector and is stopped: with 999 zones left the resumed copy jumps again. */
  lemma StageLossDiffers(c: Config, dst: seq<Content>)
    requires c.strategy == SmartNoReverse && ConfigOk(c) && |dst| == |c.source| == |LossJournal()|
    ensures Resumable(c, LossStart(dst))
    ensures var r := Run(c, LossStart(dst), [Copied]);
            && r.ending == Interrupted && |r.final.sched.zones| > 0 && CursorOk(r.final.sched)
            && |Reopen(r.final).sched.zones| > 0
            && NextTask(c, Reopen(r.final).sched) != NextTask(c, r.final.sched)
  {
    hide NextTask, Parse, JumpPossible, LossJournal, LossZones, LossStart, Run, Coherent;
    LossStartOk(c, dst);
    LossRun(c, LossStart(dst));
    LossJumps();
    ResumedNextBlock(c, LossStart(dst), [Copied]);
  }

  lemma HasRest(zones: seq<Zone>)
    requires Sorted(zones) && zones != []
    ensures Total(zones) > 0
  {
    TotalNonNegative(zones);
  }

  lemma LossZero()
    ensures |LossZones()| == SMALL + 1 && LossZones()[0] == Zone(1, 2, true, true)
  {
  }

  lemma LossFirstSector(c: Config, s: Copy)
    requires c.strategy == SmartNoReverse && RoomFor(c, s) && Valid(c, s)
             && s.sched == Sched(LossZones(), None, false, 0)
    requires |LossZones()| == SMALL + 1 && Choose(c, s.sched) == Some(Sched(LossZones(), Some(0), false, 1))
    ensures s.num < s.den && Step(c, s, Copied).Done? && !Step(c, s, Copied).abort
    ensures var s1 := Step(c, s, Copied).next;
            s1.sched == Sched(LossZones()[1..], None, false, 1) && s1.num < s1.den
  {
    hide Choose, Step, Mark, LossZones, UseResults, Proceed, Valid, Sorted;
    LossZero();
    OneSectorDone(c, LossZones());
    ValidSorted(c, s);
    TotalNonNegative(s.sched.zones);
    StepIs(c, s, Copied, Sched(LossZones(), Some(0), false, 1));
    var s1 := Step(c, s, Copied).next;
    ValidSorted(c, s1);
    HasRest(s1.sched.zones);
  }

  lemma OneSectorDone(c: Config, zones: seq<Zone>)
    requires c.strategy == SmartNoReverse && |zones| > 0 && Length(zones[0]) == 1
    ensures var s := Sched(zones, Some(0), false, 1);
            && Proceed(s) == Task(zones[0].begin, 1)
            && UseResults(c, s, 1, false) == Sched(zones[1..], None, false, 1)
  {
    assert Without(zones, 0) == zones[1..];
  }

  lemma ValidSorted(c: Config, s: Copy)
    requires Valid(c, s)
    ensures Sorted(s.sched.zones) && s.den - s.num == Total(s.sched.zones)
    ensures forall i | 0 <= i < |s.sched.zones| :: s.sched.zones[i].begin < s.sched.zones[i].end
  {
  }
}
