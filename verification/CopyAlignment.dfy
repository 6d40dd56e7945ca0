/** Blocks, journal and zones stay aligned to 256 sectors. */
module CopyAlignment {
  import opened CopyTypes
  import opened ReadStrategies
  import opened ZoneCover
  import opened JournalParser
  import opened CopyRun
  import opened CopyBounds
  import opened CopyHistory
  import opened CopyResume

  /** One whole 256-aligned block; only the last block of the disk may be short. */
  predicate WholeBlock(t: Task, size: int) {
    && t.lba % SECTORS_AT_ONCE == 0
    && 0 < t.sectors <= SECTORS_AT_ONCE
    && (t.sectors == SECTORS_AT_ONCE || t.lba + t.sectors == size)
  }

  ghost predicate AllWhole(tasks: seq<Task>, size: int) {
    forall i | 0 <= i < |tasks| :: WholeBlock(tasks[i], size)
  }

  ghost predicate BlockAligned(zones: seq<Zone>, size: int) {
    forall i | 0 <= i < |zones| ::
      zones[i].begin % SECTORS_AT_ONCE == 0 && (zones[i].end % SECTORS_AT_ONCE == 0 || zones[i].end == size)
  }

  /** All sectors of a block have the status of its first one. */
  ghost predicate Uniform(journal: seq<SectorStatus>) {
    forall k | 0 <= k < |journal| :: journal[k] == journal[Align(k)]
  }

  /** smart may read a disk backward from its end, so it needs the end to be aligned. */
  predicate AlignedEnd(c: Config, size: int) {
    c.strategy == Smart ==> size % SECTORS_AT_ONCE == 0
  }

  /** Reading backward never starts at an unaligned end of the disk. */
  predicate ReverseOk(c: Config, s: Sched) {
    && (Forward(c) ==> !s.reverse)
    && (c.strategy == Skipfail && s.current.Some? && s.reverse ==> s.current.value + 1 < |s.zones|)
  }

  lemma SplitAligned(zones: seq<Zone>, i: nat, at: int, size: int)
    requires BlockAligned(zones, size) && i < |zones| && at % SECTORS_AT_ONCE == 0
    ensures BlockAligned(SplitZone(zones, i, at), size)
  {
    var split := SplitZone(zones, i, at);
    forall j | 0 <= j < |split|
      ensures split[j].begin % SECTORS_AT_ONCE == 0
      ensures split[j].end % SECTORS_AT_ONCE == 0 || split[j].end == size
    {
      var o := zones[if j <= i then j else j - 1];
      assert o.begin % SECTORS_AT_ONCE == 0 && (o.end % SECTORS_AT_ONCE == 0 || o.end == size);
    }
  }

  lemma ChooseReverseOk(c: Config, s: Sched)
    requires CursorOk(s) && |s.zones| > 0 && ReverseOk(c, s) && Choose(c, s).Some?
    ensures ReverseOk(c, Choose(c, s).value)
  {
    if c.strategy == SmartNoReverse && FirstLive(c, s.zones, 0) == |s.zones| {
      SmartJumpLands(c, s, LargestOf(s.zones, |s.zones|));
    }
  }

  lemma ChooseAligned(c: Config, s: Sched, size: int)
    requires ConfigOk(c) && CursorOk(s) && |s.zones| > 0
    requires BlockAligned(s.zones, size) && Choose(c, s).Some?
    ensures BlockAligned(Choose(c, s).value.zones, size)
  {
    if Choose(c, s).value.zones != s.zones {
      var i, at := SplitPlace(c, s);
      SplitAligned(s.zones, i, at, size);
    }
  }

  lemma TaskWhole(c: Config, s: Sched, size: int)
    requires Near(s) && BlockAligned(s.zones, size) && Within(s.zones, size)
    requires ReverseOk(c, s) && AlignedEnd(c, size)
    requires IsSmart(c) || IsSkipfail(c) || c.strategy == Plain
    ensures WholeBlock(Proceed(s), size)
  {
    TaskInZone(s);
    var z := s.zones[s.current.value];
    if s.reverse && c.strategy == Skipfail {
      assert z.end <= s.zones[s.current.value + 1].begin < s.zones[s.current.value + 1].end <= size;
    }
    assert z.begin % SECTORS_AT_ONCE == 0 && (z.end % SECTORS_AT_ONCE == 0 || z.end == size);
  }

  lemma ConsumeAligned(s: Sched, failed: bool, size: int)
    requires Near(s) && BlockAligned(s.zones, size) && WholeBlock(Proceed(s), size)
    ensures BlockAligned(Consume(s, Proceed(s).sectors, failed).zones, size)
  {
    TaskInZone(s);
    var t := Proceed(s);
    var zones := Consume(s, t.sectors, failed).zones;
    forall j | 0 <= j < |zones|
      ensures zones[j].begin % SECTORS_AT_ONCE == 0
      ensures zones[j].end % SECTORS_AT_ONCE == 0 || zones[j].end == size
    {
      var i := ConsumedFrom(s, failed, j);
      assert s.zones[i].begin % SECTORS_AT_ONCE == 0
             && (s.zones[i].end % SECTORS_AT_ONCE == 0 || s.zones[i].end == size);
    }
  }

  lemma UseReverseOk(c: Config, s: Sched, n: int, failed: bool)
    requires ReverseOk(c, s) && s.current.Some? && s.current.value < |s.zones|
    ensures ReverseOk(c, UseResults(c, s, n, failed))
  {
  }

  lemma MarkUniform(journal: seq<SectorStatus>, t: Task, status: SectorStatus)
    requires Uniform(journal) && WholeBlock(t, |journal|) && 0 <= t.lba && t.lba + t.sectors <= |journal|
    ensures Uniform(Mark(journal, t, status))
  {
    var j := Mark(journal, t, status);
    forall k | 0 <= k < |j| ensures j[k] == j[Align(k)] {
      assert journal[k] == journal[Align(k)];
      assert InTask(t, k) <==> InTask(t, Align(k));
    }
  }

  ghost predicate Neat(c: Config, s: Copy) {
    && Valid(c, s) && AlignedEnd(c, |s.journal|) && ReverseOk(c, s.sched)
    && BlockAligned(s.sched.zones, |s.journal|) && Uniform(s.journal)
  }

  lemma StepNeat(c: Config, s: Copy, o: Outcome)
    requires Neat(c, s) && s.num < s.den && Step(c, s, o).Done?
    ensures Neat(c, Step(c, s, o).next) && WholeBlock(Step(c, s, o).task, |s.journal|)
  {
    hide Choose, UseResults;
    HasZones(c, s);
    ProcessOk(c, s, o);
    var size, s1 := |s.journal|, Choose(c, s.sched).value;
    var t := Proceed(s1);
    ChooseAligned(c, s.sched, size);
    ChooseReverseOk(c, s.sched);
    TaskWhole(c, s1, size);
    ConsumeAligned(s1, BlockFailed(o), size);
    UseReverseOk(c, s1, t.sectors, BlockFailed(o));
    MarkUniform(s.journal, t, StatusOf(o, t.sectors));
    ModeKept(c, s.sched, t.sectors, BlockFailed(o));
  }

  lemma PrependWhole(t: Task, tasks: seq<Task>, size: int)
    requires WholeBlock(t, size) && AllWhole(tasks, size)
    ensures AllWhole([t] + tasks, size)
  {
  }

  lemma {:induction false} RunNeat(c: Config, s: Copy, os: seq<Outcome>)
    requires Neat(c, s)
    ensures AllWhole(Run(c, s, os).tasks, |s.journal|)
    ensures Uniform(Run(c, s, os).final.journal) && |Run(c, s, os).final.journal| == |s.journal|
    decreases |os|
  {
    hide Step, AllWhole, BlockAligned, ReverseOk;
    assert AllWhole([], |s.journal|) by { NoneWhole(|s.journal|); }
    if s.num < s.den && os != [] {
      var r := Step(c, s, os[0]);
      if r.Done? {
        StepNeat(c, s, os[0]);
        PrependWhole(r.task, [], |s.journal|);
        assert [r.task] + [] == [r.task];
        if !r.abort {
          RunNeat(c, r.next, os[1..]);
          PrependWhole(r.task, Run(c, r.next, os[1..]).tasks, |s.journal|);
        }
      } else {
        RefusedKeeps(c, s, os[0]);
      }
    }
  }

  lemma NoneWhole(size: int)
    ensures AllWhole([], size)
  {
  }

  /** The exception is real: after a first read error smart goes to the end of the disk, if there is
      anything left, and the block it reads there is aligned exactly when the disk is a whole number
      of blocks or has at most two. */
  lemma SmartAtUnalignedEnd(c: Config, size: int)
    requires c.strategy == Smart && size > 0
    ensures var first := Choose(c, FreshSched(size)).value;
            var s := UseResults(c, first, Proceed(first).sectors, true);
            if size <= SECTORS_AT_ONCE then s.zones == []
            else
              && |s.zones| > 0 && CursorOk(s) && Choose(c, s).Some?
              && var t := Proceed(Choose(c, s).value);
                 && t.lba + t.sectors == size
                 && (WholeBlock(t, size) <==> size % SECTORS_AT_ONCE == 0 || size <= 2 * SECTORS_AT_ONCE)
  {
    FirstLiveIs(c, FreshSched(size).zones, 0);
    var first := Choose(c, FreshSched(size)).value;
    var s := UseResults(c, first, Proceed(first).sectors, true);
    if size > SECTORS_AT_ONCE {
      assert s.zones == [Zone(SECTORS_AT_ONCE, size, true, false)];
      FirstLiveIs(c, s.zones, 0);
    }
  }

  // ----- a journal written block by block gives aligned zones -----

  lemma UniformParse(journal: seq<SectorStatus>)
    requires Uniform(journal)
    ensures BlockAligned(Parse(journal).zones, |journal|)
  {
    var zones := Parse(journal).zones;
    ParseExact(journal);
    forall i | 0 <= i < |zones|
      ensures zones[i].begin % SECTORS_AT_ONCE == 0
      ensures zones[i].end % SECTORS_AT_ONCE == 0 || zones[i].end == |journal|
    {
      BeginAligned(zones, journal, i);
      if zones[i].end < |journal| { EndAligned(zones, journal, i); }
    }
  }

  lemma SameBlock(k: int)
    requires k % SECTORS_AT_ONCE != 0
    ensures Align(k - 1) == Align(k)
  {
  }

  lemma BeginAligned(zones: seq<Zone>, journal: seq<SectorStatus>, i: nat)
    requires Uniform(journal) && Tracks(zones, journal) && i < |zones|
    ensures zones[i].begin % SECTORS_AT_ONCE == 0
  {
    var b := zones[i].begin;
    assert InZone(zones[i], b);
    assert journal[b] == Unread;
    if b > 0 {
      BeforeIsRead(zones, journal, i);
      assert journal[Align(b - 1)] != journal[Align(b)];
    }
    if b % SECTORS_AT_ONCE != 0 { SameBlock(b); }
  }

  lemma EndAligned(zones: seq<Zone>, journal: seq<SectorStatus>, i: nat)
    requires Uniform(journal) && Tracks(zones, journal) && i < |zones| && zones[i].end < |journal|
    ensures zones[i].end % SECTORS_AT_ONCE == 0
  {
    var e := zones[i].end;
    EndIsRead(zones, journal, i);
    assert InZone(zones[i], e - 1);
    assert journal[e - 1] == Unread;
    assert journal[Align(e - 1)] != journal[Align(e)];
    if e % SECTORS_AT_ONCE != 0 { SameBlock(e); }
  }

  // ----- sessions -----

  /** One start of the program: its configuration and what happens to it until it stops. */
  datatype Session = Session(config: Config, outcomes: seq<Outcome>)

  ghost predicate SessionOk(session: Session, size: int) {
    ConfigOk(session.config) && |session.config.source| == size
  }

  lemma ReopenNeat(c: Config, s: Copy)
    requires ConfigOk(c) && |s.journal| == |s.dst| == |c.source|
    requires Uniform(s.journal) && AlignedEnd(c, |s.journal|)
    ensures Neat(c, Reopen(s))
  {
    ReopenValid(c, s);
    UniformParse(s.journal);
  }

  lemma {:induction false} RunKeepsSizes(c: Config, s: Copy, os: seq<Outcome>)
    requires Valid(c, s)
    ensures |Run(c, s, os).final.dst| == |s.dst| && |Run(c, s, os).final.journal| == |s.journal|
    decreases |os|
  {
    hide Choose, UseResults;
    if s.num < s.den && os != [] && Step(c, s, os[0]).Done? { RunKeepsSizes(c, Step(c, s, os[0]).next, os[1..]); }
  }

  /** Any number of sessions, each with its own strategy, errors and stopping point, each
      resuming from the journal of the one before: all their blocks, and the last state. */
  function RunSessions(sessions: seq<Session>, s: Copy): (r: (seq<Task>, Copy))
    requires |s.journal| == |s.dst| && forall i | 0 <= i < |sessions| :: SessionOk(sessions[i], |s.journal|)
    ensures |r.1.journal| == |r.1.dst| == |s.journal|
    decreases |sessions|
  {
    if sessions == [] then ([], s)
    else
      assert SessionOk(sessions[0], |s.journal|);
      var c := sessions[0].config;
      ReopenValid(c, s);
      RunKeepsSizes(c, Reopen(s), sessions[0].outcomes);
      var first := Run(c, Reopen(s), sessions[0].outcomes);
      var rest := RunSessions(sessions[1..], first.final);
      (first.tasks + rest.0, rest.1)
  }

  /** From a blank journal, or any block-wise one, every block of every session is whole and
      aligned, and the journal stays constant on each block. */
  lemma {:induction false} SessionsStayAligned(sessions: seq<Session>, s: Copy)
    requires |s.journal| == |s.dst| && forall i | 0 <= i < |sessions| :: SessionOk(sessions[i], |s.journal|)
    requires forall i | 0 <= i < |sessions| :: AlignedEnd(sessions[i].config, |s.journal|)
    requires Uniform(s.journal)
    ensures AllWhole(RunSessions(sessions, s).0, |s.journal|) && Uniform(RunSessions(sessions, s).1.journal)
    decreases |sessions|
  {
    hide Run;
    if sessions != [] {
      assert SessionOk(sessions[0], |s.journal|) && AlignedEnd(sessions[0].config, |s.journal|);
      var c := sessions[0].config;
      ReopenNeat(c, s);
      RunNeat(c, Reopen(s), sessions[0].outcomes);
      RunKeepsSizes(c, Reopen(s), sessions[0].outcomes);
      SessionsStayAligned(sessions[1..], Run(c, Reopen(s), sessions[0].outcomes).final);
    }
  }
}
