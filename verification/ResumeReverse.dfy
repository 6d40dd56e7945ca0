/** Resuming under the strategies that also read backward: smart and skipfail. */
module ResumeReverse {
  import opened CopyTypes
  import opened ReadStrategies
  import opened ZoneCover
  import opened JournalParser
  import opened CopyRun
  import opened CopyBounds
  import opened CopyHistory
  import opened CopyResume
  import opened ResumeRoom

  predicate Reversing(c: Config) {
    c.strategy == Smart || c.strategy == Skipfail
  }

  // ----- the current zone is one a search would find again -----

  /** Until smart's stage 1 the current zone is the first live one, and it is read from the border
      a fresh search would choose. */
  predicate Refound(c: Config, s: Sched)
    requires CursorOk(s)
  {
    s.current.Some? && s.stage == 0 ==>
      var i := s.current.value;
      && i == FirstLive(c, s.zones, 0) && s.reverse == s.zones[i].beginBad
      && (s.reverse ==> !s.zones[i].endBad && (c.strategy == Skipfail ==> i + 1 < |s.zones|))
  }

  lemma RefoundAgain(c: Config, s: Sched, reverse: bool)
    requires Reversing(c) && CursorOk(s) && s.current.Some? && s.stage == 0 && Refound(c, s)
    ensures Choose(c, s.(current := None, reverse := reverse)) == Some(s)
  {
  }

  /** What surrounds the block read first after a split: the left piece of it, backward. */
  ghost predicate SplitShape(c: Config, s: Sched)
    requires s.current.Some? && s.current.value < |s.zones|
  {
    var i := s.current.value;
    && s.stage == 0 && s.reverse && i + 1 < |s.zones|
    && s.zones[i].beginBad && !s.zones[i + 1].beginBad
    && (forall k | 0 <= k < i :: Stuck(c, s.zones, k))
    && if c.strategy == Smart then
         && Length(s.zones[i]) >= SMALLEST_HALF && Length(s.zones[i + 1]) >= SMALLEST_HALF && s.zones[i + 1].endBad
         && forall k | i + 1 < k < |s.zones| :: Stuck(c, s.zones, k)
       else
         && Length(s.zones[i]) <= c.skipBlocks * SECTORS_AT_ONCE && s.zones[i + 1].begin % SECTORS_AT_ONCE == 0
         && (s.zones[i + 1].endBad || i + 2 == |s.zones|)
  }

  lemma JumpShape(c: Config, s: Sched, k: nat)
    requires c.strategy == Smart && s.stage == 0 && k < |s.zones| && AllStuck(c, s.zones)
    requires 0 <= s.zones[k].begin && Length(s.zones[k]) > INDIVISIBLE_DEFECT_ZONE_SIZE_SECTORS
    ensures SmartJump(c, s, k).Some?
    ensures var s1 := SmartJump(c, s, k).value; CursorOk(s1) && s1.current.Some? && SplitShape(c, s1) && Refound(c, s1)
  {
    hide MidPoint;
    SmartJumpLands(c, s, k);
    MidPointInside(s.zones[k]);
    SplitAt(s.zones, k, MidPoint(s.zones[k]));
    var s1 := SmartJump(c, s, k).value;
    hide SmartJump, SplitZone, FirstLive;
    forall j | 0 <= j < |s1.zones| && j != k && j != k + 1 ensures Stuck(c, s1.zones, j) {
      assert Stuck(c, s.zones, if j < k then j else j - 1);
    }
    assert Stuck(c, s.zones, k);
    FirstLiveIs(c, s1.zones, k);
  }

  lemma SkipShape(c: Config, s: Sched, i: nat)
    requires c.strategy == Skipfail && ConfigOk(c) && s.stage == 0 && i < |s.zones| && !Stuck(c, s.zones, i)
    requires 0 <= s.zones[i].begin && s.zones[i].beginBad && (s.zones[i].endBad || i + 1 == |s.zones|)
    requires forall k | 0 <= k < i :: Stuck(c, s.zones, k)
    ensures var s1 := SkipfailAt(c, s, i); CursorOk(s1) && s1.current.Some? && SplitShape(c, s1) && Refound(c, s1)
  {
    PointsAligned(c);
    SkipPointInside(c, s.zones[i]);
    SplitAt(s.zones, i, SkipPoint(c, s.zones[i]));
    var s1 := SkipfailAt(c, s, i);
    hide SkipPoint, SplitZone;
    forall k | 0 <= k < i ensures Stuck(c, s1.zones, k) {
      assert Stuck(c, s.zones, k);
    }
    FirstLiveIs(c, s1.zones, i);
  }

  /** A split is made by a search that is stuck; everything else leaves the list alone. */
  lemma ChooseRefound(c: Config, s: Sched)
    requires Reversing(c) && ConfigOk(c) && CursorOk(s) && |s.zones| > 0 && Gapped(s.zones) && Refound(c, s)
    requires s.stage == 0 || (s.stage == 1 && IsSmart(c))
    requires Choose(c, s).Some?
    ensures var s1 := Choose(c, s).value; Refound(c, s1) && (s1.zones == s.zones || SplitShape(c, s1))
    ensures Choose(c, s).value.zones != s.zones ==> s.current == None
  {
    hide LargestOf, SkipfailAt, SmartJump, FirstLive;
    var i := FirstLive(c, s.zones, 0);
    if s.current.None? && c.strategy == Smart && s.stage == 0 && i == |s.zones| {
      var k := LargestOf(s.zones, |s.zones|);
      if MaySplit(s.zones, k) { JumpShape(c, s, k); }
    }
    if s.current.None? && c.strategy == Skipfail && i < |s.zones| { SkipRefound(c, s, i); }
  }

  lemma SkipRefound(c: Config, s: Sched, i: nat)
    requires c.strategy == Skipfail && ConfigOk(c) && s.stage == 0 && Gapped(s.zones)
    requires i < |s.zones| && i == FirstLive(c, s.zones, 0)
    ensures var s1 := SkipfailAt(c, s, i);
            && CursorOk(s1) && s1.current.Some? && Refound(c, s1)
            && (s1.zones == s.zones || SplitShape(c, s1))
  {
    var z := s.zones[i];
    if z.beginBad && (z.endBad || i + 1 == |s.zones|) { SkipShape(c, s, i); }
  }

  lemma UseRefound(c: Config, s: Sched, failed: bool)
    requires Reversing(c) && Near(s) && Refound(c, s) && (s.stage == 0 || s.stage == 1)
    ensures var s' := UseResults(c, s, Proceed(s).sectors, failed); CursorOk(s') && Refound(c, s')
  {
    TaskInZone(s);
    var i, s' := s.current.value, UseResults(c, s, Proceed(s).sectors, failed);
    if s'.current.Some? && s'.stage == 0 {
      forall j | 0 <= j < i ensures Stuck(c, s'.zones, j) { assert Stuck(c, s.zones, j); }
      FirstLiveIs(c, s'.zones, i);
    }
  }

  // ----- flags against the journal -----

  predicate BeginMatches(z: Zone, journal: seq<SectorStatus>) {
    z.beginBad <==> (0 < z.begin <= |journal| && IsError(journal[z.begin - 1]))
  }

  ghost predicate BeginsBut(zones: seq<Zone>, journal: seq<SectorStatus>, j: int) {
    forall i | 0 <= i < |zones| && i != j :: BeginMatches(zones[i], journal)
  }

  /** The search would go on at a zone whose begin flag is clear although the sector before it is a
      read error: the first block read after a split has just failed. */
  predicate Blind(c: Config, s: Copy) {
    && s.sched.stage == 0 && s.sched.current == None
    && var j := FirstLive(c, s.sched.zones, 0);
       j < |s.sched.zones| && !s.sched.zones[j].beginBad && !BeginMatches(s.sched.zones[j], s.journal)
  }

  /** What else holds then: every other flag is right, and the zone is the right piece of a split. */
  ghost predicate BlindShape(c: Config, zones: seq<Zone>, journal: seq<SectorStatus>) {
    var j := FirstLive(c, zones, 0);
    && j < |zones| && BeginsBut(zones, journal, j)
    && if c.strategy == Smart then
         && j > 0 && Length(zones[j]) >= SMALLEST_HALF && zones[j].endBad
         && forall k | 0 <= k < |zones| && k != j :: Stuck(c, zones, k)
       else zones[j].begin % SECTORS_AT_ONCE == 0 && (zones[j].endBad || j + 1 == |zones|)
  }

  /** A state of a reversing copy whose flags the journal explains, all but at most one. */
  ghost predicate Explained(c: Config, s: Copy) {
    && Valid(c, s) && Refound(c, s.sched) && EndFlagsMatch(s.sched.zones, s.journal)
    && if Blind(c, s) then BlindShape(c, s.sched.zones, s.journal) else BeginFlagsMatch(s.sched.zones, s.journal)
  }

  /** The same about a state whose next block is chosen. */
  ghost predicate Poised(c: Config, s: Sched, journal: seq<SectorStatus>) {
    && Near(s) && Exact(s.zones, journal) && Refound(c, s) && EndFlagsMatch(s.zones, journal)
    && BeginsBut(s.zones, journal, if s.reverse then -1 else s.current.value)
    && (Gapped(s.zones) || SplitShape(c, s))
  }

  lemma SplitEndFlags(zones: seq<Zone>, i: nat, at: int, journal: seq<SectorStatus>)
    requires Tracks(zones, journal) && EndFlagsMatch(zones, journal)
    requires i < |zones| && zones[i].begin < at < zones[i].end
    ensures EndFlagsMatch(SplitZone(zones, i, at), journal)
  {
    var split := SplitZone(zones, i, at);
    assert InZone(zones[i], at);
    assert journal[at] == Unread;
    forall j | 0 <= j < |split|
      ensures split[j].endBad <==> (0 <= split[j].end < |journal| && IsError(journal[split[j].end]))
    {
      if j != i {
        var o := if j <= i then j else j - 1;
        assert split[j].end == zones[o].end && split[j].endBad == zones[o].endBad;
      }
    }
  }

  lemma AllBegins(zones: seq<Zone>, journal: seq<SectorStatus>)
    ensures BeginFlagsMatch(zones, journal) <==> BeginsBut(zones, journal, -1)
  {
    if BeginsBut(zones, journal, -1) {
      forall i | 0 <= i < |zones|
        ensures zones[i].beginBad <==> (0 < zones[i].begin <= |journal| && IsError(journal[zones[i].begin - 1]))
      {
        assert BeginMatches(zones[i], journal);
      }
    }
  }

  /** A search that finds a zone with a good begin reads it forward. */
  lemma GoodBeginChosen(c: Config, s: Sched)
    requires Reversing(c) && CursorOk(s) && s.current == None && s.stage == 0 && |s.zones| > 0
    requires FirstLive(c, s.zones, 0) < |s.zones| && !s.zones[FirstLive(c, s.zones, 0)].beginBad
    ensures Choose(c, s) == Some(s.(current := Some(FirstLive(c, s.zones, 0)), reverse := false))
  {
  }

  lemma ChoosePoised(c: Config, s: Copy)
    requires Reversing(c) && Explained(c, s) && |s.sched.zones| > 0 && Choose(c, s.sched).Some?
    ensures Poised(c, Choose(c, s.sched).value, s.journal)
  {
    hide Choose, Stuck, BlindShape, Refound, SplitShape;
    var s1 := Choose(c, s.sched).value;
    ChooseNear(c, s.sched, s.journal);
    ChooseRefound(c, s.sched);
    AllBegins(s.sched.zones, s.journal);
    AllBegins(s1.zones, s.journal);
    if Blind(c, s) {
      GoodBeginChosen(c, s.sched);
      BlindBegins(c, s.sched.zones, s.journal);
    } else {
      ChooseBeginFlags(c, s.sched, s.journal);
      if s1.zones != s.sched.zones {
        var i, at := SplitPlace(c, s.sched);
        SplitEndFlags(s.sched.zones, i, at, s.journal);
      }
    }
  }

  lemma BlindBegins(c: Config, zones: seq<Zone>, journal: seq<SectorStatus>)
    requires BlindShape(c, zones, journal)
    ensures FirstLive(c, zones, 0) < |zones| && BeginsBut(zones, journal, FirstLive(c, zones, 0))
  {
  }

  lemma ConsumeEndFlags(c: Config, s: Sched, journal: seq<SectorStatus>, failed: bool, status: SectorStatus)
    requires Reversing(c) && Poised(c, s, journal) && (failed <==> IsError(status))
    ensures Proceed(s).lba >= 0 && Proceed(s).sectors > 0 && Proceed(s).lba + Proceed(s).sectors <= |journal|
    ensures EndFlagsMatch(Consume(s, Proceed(s).sectors, failed).zones, Mark(journal, Proceed(s), status))
  {
    hide Near, Exact, BeginsBut, Refound, Gapped, Consume;
    TaskInZone(s);
    InsideJournal(s, journal);
    var t := Proceed(s);
    var zones, journal' := Consume(s, t.sectors, failed).zones, Mark(journal, t, status);
    forall j | 0 <= j < |zones|
      ensures zones[j].endBad <==> (0 <= zones[j].end < |journal| && IsError(journal'[zones[j].end]))
    {
      var i := ConsumedFrom(s, failed, j);
      if i != s.current.value { OutsideTask(s, journal, i); }
    }
  }

  /** A begin flag can become wrong only behind a split whose first block fails. */
  lemma BeginAfter(c: Config, s: Sched, journal: seq<SectorStatus>, failed: bool, status: SectorStatus, j: nat)
    returns (i: nat)
    requires Reversing(c) && Poised(c, s, journal) && (failed <==> IsError(status))
    requires j < |Consume(s, Proceed(s).sectors, failed).zones|
    ensures Proceed(s).lba >= 0 && Proceed(s).sectors > 0 && Proceed(s).lba + Proceed(s).sectors <= |journal|
    ensures i < |s.zones|
    ensures i == if |Consume(s, Proceed(s).sectors, failed).zones| == |s.zones| || j < s.current.value then j else j + 1
    ensures var n := Proceed(s).sectors; var z := Consume(s, n, failed).zones[j];
            && (if i == s.current.value then z == Shrink(s.zones[i], s.reverse, n, failed) && z.begin < z.end
                else z == s.zones[i])
            && (BeginMatches(z, Mark(journal, Proceed(s), status))
                || (failed && SplitShape(c, s) && i == s.current.value + 1))
  {
    hide Near, Exact, EndFlagsMatch, Refound, Gapped, SplitShape, Consume;
    TaskInZone(s);
    InsideJournal(s, journal);
    var t, i0 := Proceed(s), s.current.value;
    i := ConsumedFrom(s, failed, j);
    var z, journal' := Consume(s, t.sectors, failed).zones[j], Mark(journal, t, status);
    if i != i0 || s.reverse { assert BeginMatches(s.zones[i], journal); }
    if i != i0 {
      OutsideTask(s, journal, i);
      if InTask(t, z.begin - 1) {
        TaskUnread(s, journal, z.begin - 1);
        TouchingNotGapped(s.zones, i0);
      }
    }
  }

  lemma TouchingNotGapped(zones: seq<Zone>, i: nat)
    requires i + 1 < |zones| && zones[i].end == zones[i + 1].begin
    ensures !Gapped(zones)
  {
  }

  lemma ConsumeBegins(c: Config, s: Sched, journal: seq<SectorStatus>, failed: bool, status: SectorStatus)
    requires Reversing(c) && Poised(c, s, journal) && (failed <==> IsError(status)) && !(failed && SplitShape(c, s))
    ensures Proceed(s).lba >= 0 && Proceed(s).sectors > 0 && Proceed(s).lba + Proceed(s).sectors <= |journal|
    ensures BeginFlagsMatch(Consume(s, Proceed(s).sectors, failed).zones, Mark(journal, Proceed(s), status))
  {
    TaskInZone(s);
    var t := Proceed(s);
    var zones, journal' := Consume(s, t.sectors, failed).zones, Mark(journal, t, status);
    hide Consume, Poised, SplitShape;
    forall j | 0 <= j < |zones| ensures BeginMatches(zones[j], journal') {
      var i := BeginAfter(c, s, journal, failed, status, j);
    }
    AllBegins(zones, journal');
  }

  /** The list after the first block behind a split has failed. */
  lemma SplitFailedList(c: Config, s: Sched)
    requires Reversing(c) && Near(s) && SplitShape(c, s)
    ensures var zones := Consume(s, Proceed(s).sectors, true).zones;
            var j := FirstLive(c, zones, 0);
            && j < |zones| && zones[j] == s.zones[s.current.value + 1] && !zones[j].beginBad
            && (if c.strategy == Smart then j > 0 && (forall k | 0 <= k < |zones| && k != j :: Stuck(c, zones, k))
                else zones[j].endBad || j + 1 == |zones|)
            && j == s.current.value + |zones| - |s.zones| + 1
  {
    TaskInZone(s);
    var i, n := s.current.value, Proceed(s).sectors;
    var zones := Consume(s, n, true).zones;
    var j := if |zones| == |s.zones| then i + 1 else i;
    assert zones[j] == s.zones[i + 1];
    forall k | 0 <= k < j ensures Stuck(c, zones, k) {
      if k < i { assert Stuck(c, s.zones, k); }
    }
    FirstLiveIs(c, zones, j);
    if c.strategy == Smart {
      forall k | j < k < |zones| ensures Stuck(c, zones, k) { assert Stuck(c, s.zones, k); }
    }
  }

  lemma SplitFailed(c: Config, s: Sched, journal: seq<SectorStatus>, status: SectorStatus)
    requires Reversing(c) && Poised(c, s, journal) && IsError(status) && SplitShape(c, s)
    ensures Proceed(s).lba >= 0 && Proceed(s).sectors > 0 && Proceed(s).lba + Proceed(s).sectors <= |journal|
    ensures var zones := Consume(s, Proceed(s).sectors, true).zones;
            BlindShape(c, zones, Mark(journal, Proceed(s), status)) && !zones[FirstLive(c, zones, 0)].beginBad
  {
    TaskInZone(s);
    var t := Proceed(s);
    var zones, journal' := Consume(s, t.sectors, true).zones, Mark(journal, t, status);
    SplitFailedList(c, s);
    var j := FirstLive(c, zones, 0);
    forall k | 0 <= k < |zones| && k != j ensures BeginMatches(zones[k], journal') {
      var i := BeginAfter(c, s, journal, true, status, k);
    }
  }

  lemma UseExplained(c: Config, s: Sched, journal: seq<SectorStatus>, failed: bool, status: SectorStatus)
    requires Reversing(c) && Poised(c, s, journal) && (failed <==> IsError(status))
    requires s.stage == 0 || (s.stage == 1 && IsSmart(c))
    ensures Proceed(s).lba >= 0 && Proceed(s).sectors > 0 && Proceed(s).lba + Proceed(s).sectors <= |journal|
    ensures var s', journal' := UseResults(c, s, Proceed(s).sectors, failed), Mark(journal, Proceed(s), status);
            && CursorOk(s') && Refound(c, s') && EndFlagsMatch(s'.zones, journal')
            && (BeginFlagsMatch(s'.zones, journal') ||
                (s'.current == None && s'.stage == 0 && BlindShape(c, s'.zones, journal')
                 && !s'.zones[FirstLive(c, s'.zones, 0)].beginBad))
  {
    UseRefound(c, s, failed);
    ConsumeEndFlags(c, s, journal, failed, status);
    if failed && SplitShape(c, s) {
      SplitFailed(c, s, journal, status);
    } else {
      ConsumeBegins(c, s, journal, failed, status);
    }
    hide Consume, Refound, Poised;
  }

  /** Whichever of the two descriptions holds, the flags are explained. */
  lemma BlindOrNot(c: Config, s: Copy)
    requires Valid(c, s) && Refound(c, s.sched) && EndFlagsMatch(s.sched.zones, s.journal)
    requires BeginFlagsMatch(s.sched.zones, s.journal) ||
             (s.sched.current == None && s.sched.stage == 0 && BlindShape(c, s.sched.zones, s.journal)
              && !s.sched.zones[FirstLive(c, s.sched.zones, 0)].beginBad)
    ensures Explained(c, s)
  {
    var zones := s.sched.zones;
    if BeginFlagsMatch(zones, s.journal) {
      AllBegins(zones, s.journal);
    } else if !Blind(c, s) {
      forall i | 0 <= i < |zones| ensures BeginMatches(zones[i], s.journal) {}
      AllBegins(zones, s.journal);
    }
  }

  lemma DoneExplained(c: Config, s: Copy, o: Outcome)
    requires Reversing(c) && Explained(c, s) && s.num < s.den && !o.WrittenShort? && Valid(c, s) && Step(c, s, o).Done?
    ensures Explained(c, Step(c, s, o).next)
  {
    hide Explained, Choose, UseResults, Refound, EndFlagsMatch, BeginFlagsMatch, BlindShape, Poised, Tracks, Mark,
         WriteDst;
    HasZones(c, s);
    var s1 := Choose(c, s.sched).value;
    var n := Proceed(s1).sectors;
    ProcessOk(c, s, o);
    ChoosePoised(c, s);
    ModeKept(c, s.sched, n, BlockFailed(o));
    UseExplained(c, s1, s.journal, BlockFailed(o), StatusOf(o, n));
    BlindOrNot(c, Step(c, s, o).next);
  }

  /** Every completed block of smart or skipfail leaves flags the journal explains. */
  lemma StepExplained(c: Config, s: Copy, o: Outcome)
    requires Reversing(c) && Explained(c, s) && s.num < s.den && !o.WrittenShort?
    ensures Step(c, s, o).Done? ==> Explained(c, Step(c, s, o).next)
  {
    hide Explained, Choose, UseResults, Valid;
    ExplainedParts(c, s);
    if Step(c, s, o).Done? { DoneExplained(c, s, o); }
  }

  lemma {:induction false} RunExplained(c: Config, s: Copy, os: seq<Outcome>)
    requires Reversing(c) && Explained(c, s) && FullWrites(os)
    ensures Run(c, s, os).ending != GaveUp ==> Explained(c, Run(c, s, os).final)
    decreases |os|
  {
    hide Step, Explained;
    ExplainedParts(c, s);
    if s.num < s.den && os != [] {
      StepExplained(c, s, os[0]);
      var r := Step(c, s, os[0]);
      if r.Done? && !r.abort { RunExplained(c, r.next, os[1..]); }
    }
  }

  lemma ExplainedParts(c: Config, s: Copy)
    requires Explained(c, s)
    ensures Valid(c, s)
  {
  }

  lemma ReopenExplained(c: Config, s: Copy)
    requires Reversing(c) && ConfigOk(c) && |s.journal| == |s.dst| == |c.source|
    ensures Explained(c, Reopen(s))
  {
    ParseExact(s.journal);
    BlindOrNot(c, Reopen(s));
  }

  // ----- when the flags are all right, stopping is invisible -----

  lemma {:induction false} ShiftedRun(c: Config, a: Copy, b: Copy, os: seq<Outcome>)
    requires Valid(c, a) && Valid(c, b) && b == a.(num := b.num, den := b.den)
    ensures SameRun(c, a, b, os)
    decreases |os|
  {
    hide Choose, UseResults;
    if a.num < a.den && os != [] {
      var x, y := Step(c, a, os[0]), Step(c, b, os[0]);
      if x.Done? && !x.abort { ShiftedRun(c, x.next, y.next, os[1..]); }
    }
  }

  /** Two copies that choose the same next state go on alike. */
  lemma SameChoiceRun(c: Config, a: Copy, b: Copy, os: seq<Outcome>)
    requires Valid(c, a) && Valid(c, b) && |a.sched.zones| == |b.sched.zones| && a.den - a.num == b.den - b.num
    requires |a.sched.zones| > 0 ==> Choose(c, a.sched) == Choose(c, b.sched)
    requires a.journal == b.journal && a.dst == b.dst && a.dstLength == b.dstLength && a.dstEnd == b.dstEnd
    ensures SameRun(c, a, b, os)
  {
    hide Choose, UseResults;
    if a.num < a.den && os != [] {
      HasZones(c, a);
      var x, y := Step(c, a, os[0]), Step(c, b, os[0]);
      if x.Done? && !x.abort { ShiftedRun(c, x.next, y.next, os[1..]); }
    }
  }

  lemma UnblindZones(c: Config, s: Copy)
    requires Explained(c, s) && !Blind(c, s)
    ensures Reopen(s).sched == Sched(s.sched.zones, None, false, 0)
  {
    ParseIs(s.sched.zones, s.journal);
  }

  lemma UnblindChoice(c: Config, s: Copy)
    requires Reversing(c) && Explained(c, s) && !Blind(c, s) && s.sched.stage == 0 && |s.sched.zones| > 0
    ensures |Reopen(s).sched.zones| > 0 && Choose(c, Reopen(s).sched) == Choose(c, s.sched)
  {
    UnblindZones(c, s);
    if s.sched.current.Some? {
      RefoundAgain(c, s.sched, false);
    } else {
      ForgetDirection(c, s.sched);
    }
  }

  lemma ForgetDirection(c: Config, s: Sched)
    requires Reversing(c) && s.current == None && |s.zones| > 0
    ensures Choose(c, s.(reverse := false)) == Choose(c, s)
  {
    hide FirstLive, LargestOf;
  }

  /** Stopping smart in stage 0, or skipfail, anywhere but right after a failed first read behind
      a split: the resumed copy goes on as the running one, for every pattern of read errors, up to
      what a grown destination refuses. */
  lemma UnblindRun(c: Config, s: Copy, after: seq<Outcome>)
    requires Reversing(c) && Explained(c, s) && !Blind(c, s) && s.sched.stage == 0 && Bounded(s)
    ensures Valid(c, Reopen(s))
    ensures SameRun(c, s, Reopen(s), after) <==>
            s.dstEnd == s.dstLength || TasksWithin(Run(c, s, after).tasks, s.dstLength)
  {
    hide Run, Choose;
    ReopenValid(c, s);
    LiveIsParsed(s.sched.zones, s.journal);
    MeasuredRunExactly(c, s, after);
    if |s.sched.zones| > 0 { UnblindChoice(c, s); }
    SameChoiceRun(c, Measured(s), Reopen(s), after);
  }

  // ----- and what a destination that has grown makes of it -----

  lemma SkipChosenEnd(c: Config, s: Sched)
    requires c.strategy == Skipfail && ConfigOk(c) && s.stage == 0 && CursorOk(s) && |s.zones| > 0 && Gapped(s.zones)
    requires Refound(c, s) && SkipfailChoose(c, s).Some?
    ensures var i, s1 := FirstLive(c, s.zones, 0), SkipfailChoose(c, s).value;
            i < |s.zones| && s1.current == Some(i) && i < |s1.zones| && s1.zones[i].end <= s.zones[i].end
  {
    hide FirstLive;
    var i := FirstLive(c, s.zones, 0);
    if s.current == None && Length(s.zones[i]) > c.skipBlocks * SECTORS_AT_ONCE { SkipPointInside(c, s.zones[i]); }
  }

  lemma ChooseWithin(c: Config, s: Sched, end: int)
    requires Reversing(c) && ConfigOk(c) && CursorOk(s) && Gapped(s.zones) && |s.zones| > 0 && Refound(c, s)
    requires s.stage == 0 || (s.stage == 1 && IsSmart(c))
    requires EndsWithin(c, s.zones, end) && Choose(c, s).Some?
    ensures var s1 := Choose(c, s).value; EndsWithin(c, s1.zones, end) && s1.zones[s1.current.value].end <= end
  {
    hide Choose, SkipfailChoose, SplitZone;
    if c.strategy == Skipfail {
      SkipfailIsChosen(c, s);
      SkipChosenEnd(c, s);
    }
    if Choose(c, s).value.zones != s.zones {
      var i, at := SplitPlace(c, s);
      SplitEndsWithin(c, s.zones, i, at, end);
    }
  }

  lemma StepWithin(c: Config, s: Copy, o: Outcome, end: int)
    requires Reversing(c) && Valid(c, s) && Refound(c, s.sched) && s.num < s.den && EndsWithin(c, s.sched.zones, end)
    requires Step(c, s, o).Done?
    ensures var r := Step(c, s, o);
            && r.task.lba + r.task.sectors <= end && Refound(c, r.next.sched) && EndsWithin(c, r.next.sched.zones, end)
  {
    hide Choose, UseResults, EndsWithin, Consume, Mark, WriteDst, Refound;
    HasZones(c, s);
    ProcessOk(c, s, o);
    ChooseRefound(c, s.sched);
    ChooseWithin(c, s.sched, end);
    var s1 := Choose(c, s.sched).value;
    ModeKept(c, s.sched, Proceed(s1).sectors, BlockFailed(o));
    TaskInZone(s1);
    UseEndsWithin(c, s1, BlockFailed(o), end);
    UseRefound(c, s1, BlockFailed(o));
  }

  lemma {:induction false} RunWithin(c: Config, s: Copy, os: seq<Outcome>, end: int)
    requires Reversing(c) && Valid(c, s) && Refound(c, s.sched) && EndsWithin(c, s.sched.zones, end)
    ensures TasksWithin(Run(c, s, os).tasks, end)
    decreases |os|
  {
    hide Step, EndsWithin, Refound;
    if s.num < s.den && os != [] && Step(c, s, os[0]).Done? {
      var r := Step(c, s, os[0]);
      StepWithin(c, s, os[0], end);
      if !r.abort {
        RunWithin(c, r.next, os[1..], end);
        PrependWithin(r.task, Run(c, r.next, os[1..]).tasks, end);
      }
    }
  }

  /** Without a limit and without errors skipfail stops only before a stuck list. */
  lemma {:induction false} SkipCopiedEnds(c: Config, s: Copy, os: seq<Outcome>)
    requires c.strategy == Skipfail && Explained(c, s) && s.dstEnd == 0 && AllCopied(os)
    ensures Valid(c, s)
    ensures var r := Run(c, s, os);
            && Explained(c, r.final) && r.ending != Aborted && (r.ending == Finished ==> r.final.num >= r.final.den)
            && (r.ending == GaveUp ==> AllStuck(c, r.final.sched.zones))
    decreases |os|
  {
    hide Choose, UseResults, SkipfailChoose, Explained, Valid;
    ExplainedParts(c, s);
    if s.num < s.den && os != [] {
      HasZones(c, s);
      ValidCursor(c, s);
      StepExplained(c, s, os[0]);
      SkipfailIsChosen(c, s.sched);
      var r := Step(c, s, os[0]);
      if r.Done? { SkipCopiedEnds(c, r.next, os[1..]); }
    }
  }

  lemma ValidCursor(c: Config, s: Copy)
    requires Valid(c, s)
    ensures CursorOk(s.sched)
  {
  }

  /** A zone skipfail could have read, left over to its end by a run without errors that gave up: it has
      become the last one, so the run has read beyond it. */
  lemma SkipLeftover(c: Config, s: Copy, f: Copy, i: nat) returns (k: int)
    requires c.strategy == Skipfail && Explained(c, s) && Explained(c, f) && !Blind(c, s)
    requires AllStuck(c, f.sched.zones) && i < |s.sched.zones| && !Stuck(c, s.sched.zones, i)
    requires f.journal[s.sched.zones[i].end - 1] == Unread
    requires forall q | 0 <= q < |s.journal| ::
               f.journal[q] == s.journal[q] || (s.journal[q] == Unread && f.journal[q] == ReadOk)
    ensures s.sched.zones[i].end <= k < |s.journal| && s.journal[k] == Unread && f.journal[k] != Unread
  {
    var m := UnreadZone(f.sched.zones, f.journal, s.sched.zones[i].end - 1);
    StuckUnblind(c, f);
    StuckUntouched(c, s.sched.zones, s.journal, f.sched.zones, f.journal, i, m);
    k := NextIsRead(s.sched.zones, s.journal, f.sched.zones, f.journal, i, m);
  }

  /** Nothing of the zone has been read, and its border flags are as they were. */
  lemma StuckUntouched(c: Config, a: seq<Zone>, before: seq<SectorStatus>, b: seq<Zone>, after: seq<SectorStatus>,
                       i: nat, m: nat)
    requires c.strategy == Skipfail && Tracks(a, before) && Tracks(b, after) && |before| == |after|
    requires BeginFlagsMatch(a, before) && EndFlagsMatch(a, before)
    requires BeginFlagsMatch(b, after) && EndFlagsMatch(b, after)
    requires forall q | 0 <= q < |before| ::
               after[q] == before[q] || (before[q] == Unread && after[q] == ReadOk)
    requires i < |a| && m < |b| && InZone(b[m], a[i].end - 1) && Stuck(c, b, m) && !Stuck(c, a, i)
    ensures i + 1 < |a| && m + 1 == |b| && b[m].end == a[i].end
  {
    SameEnd(a, before, b, after, i, m);
    if b[m].begin > a[i].begin { BeforeIsRead(b, after, m); }
    if a[i].begin > 0 { BeforeIsRead(a, before, i); }
    assert a[i].beginBad && b[m].begin == a[i].begin;
    if a[i].end < |before| { EndIsRead(a, before, i); }
  }

  lemma NextIsRead(a: seq<Zone>, before: seq<SectorStatus>, b: seq<Zone>, after: seq<SectorStatus>, i: nat, m: nat)
    returns (k: int)
    requires Tracks(a, before) && Tracks(b, after) && |before| == |after|
    requires i + 1 < |a| && m + 1 == |b| && b[m].end == a[i].end
    ensures a[i].end <= k < |before| && before[k] == Unread && after[k] != Unread
  {
    k := a[i + 1].begin;
    assert InZone(a[i + 1], k) && k < a[i + 1].end <= |before|;
    if after[k] == Unread { var n := UnreadZone(b, after, k); }
  }

  lemma StuckUnblind(c: Config, f: Copy)
    requires AllStuck(c, f.sched.zones) && Explained(c, f)
    ensures BeginFlagsMatch(f.sched.zones, f.journal)
  {
  }

  /** Some run without errors reads beyond the end of what is written, if a zone that may still be read
      reaches there. */
  lemma ReverseReadsBeyond(c: Config, s: Copy, i: nat, end: int) returns (os: seq<Outcome>)
    requires Reversing(c) && Explained(c, s) && !Blind(c, s) && s.dstEnd == 0
    requires i < |s.sched.zones| && s.sched.zones[i].end > end && !(IsSkipfail(c) && Stuck(c, s.sched.zones, i))
    ensures Valid(c, s) && FullWrites(os) && !TasksWithin(Run(c, s, os).tasks, end)
  {
    hide Run, MaxBlocks, Stuck;
    BoundIsNat(c, s);
    os := seq(MaxBlocks(c, s.sched.zones) + 1, _ => Copied);
    var r, k := Run(c, s, os), s.sched.zones[i].end - 1;
    assert InZone(s.sched.zones[i], k);
    assert s.journal[k] == Unread;
    EachSectorOnce(c, s, os, k);
    if c.strategy == Smart {
      SmartReadsAll(c, s, os, k);
    } else if r.final.journal[k] == Unread {
      k := SkipReadsPast(c, s, os, r.final, i);
      EachSectorOnce(c, s, os, k);
    }
    var j := HitIs(r.tasks, k);
    assert r.tasks[j].lba + r.tasks[j].sectors > end;
  }

  lemma SkipReadsPast(c: Config, s: Copy, os: seq<Outcome>, f: Copy, i: nat) returns (k: int)
    requires c.strategy == Skipfail && Valid(c, s) && f == Run(c, s, os).final && |f.journal| == |s.journal|
    requires Explained(c, s) && !Blind(c, s) && s.dstEnd == 0 && AllCopied(os)
    requires |os| > MaxBlocks(c, s.sched.zones) && i < |s.sched.zones| && !Stuck(c, s.sched.zones, i)
    requires 0 < s.sched.zones[i].end <= |s.journal| && f.journal[s.sched.zones[i].end - 1] == Unread
    ensures s.sched.zones[i].end <= k < |s.journal| && s.journal[k] == Unread && f.journal[k] != Unread
  {
    hide Run, MaxBlocks, Stuck, Explained, Valid, Blind, Tracks;
    ExplainedParts(c, s);
    var r, last := Run(c, s, os), s.sched.zones[i].end - 1;
    RunTerminates(c, s, os);
    SkipCopiedEnds(c, s, os);
    ExplainedParts(c, r.final);
    ZoneUnread(c, s, i);
    EachSectorOnce(c, s, os, last);
    FinishedIsRead(c, r.final, last);
    forall q | 0 <= q < |s.journal|
      ensures r.final.journal[q] == s.journal[q] || (s.journal[q] == Unread && r.final.journal[q] == ReadOk)
    {
      CopiedByte(c, s, os, q);
      EachSectorOnce(c, s, os, q);
    }
    k := SkipLeftover(c, s, r.final, i);
  }

  lemma ZoneUnread(c: Config, s: Copy, i: nat)
    requires Valid(c, s) && i < |s.sched.zones|
    ensures 0 < s.sched.zones[i].end <= |s.journal| && s.journal[s.sched.zones[i].end - 1] == Unread
  {
    assert InZone(s.sched.zones[i], s.sched.zones[i].end - 1);
  }

  lemma FinishedIsRead(c: Config, f: Copy, k: int)
    requires Valid(c, f) && 0 <= k < |f.journal|
    ensures f.num >= f.den ==> f.journal[k] != Unread
  {
    if f.num >= f.den {
      LiveIsParsed(f.sched.zones, f.journal);
      NothingUnread(f.journal, k);
    }
  }

  /** The same by the zones: on a destination that was empty when it was opened, the stop is invisible for
      all later read errors if and only if nothing is written yet, or every zone that may still be read,
      all of them for smart and those it is not stuck at for skipfail, ends within what is. */
  lemma ReverseOnGrownExactly(c: Config, s: Copy)
    requires Reversing(c) && Explained(c, s) && !Blind(c, s) && s.sched.stage == 0 && Bounded(s)
    ensures Valid(c, s) && Valid(c, Reopen(s))
    ensures (forall after | FullWrites(after) :: SameRun(c, s, Reopen(s), after)) <==>
            s.dstEnd == s.dstLength || EndsWithin(c, s.sched.zones, s.dstLength)
  {
    hide Run, EndsWithin, SameRun, Blind, Stuck;
    ReopenValid(c, s);
    if s.dstEnd == s.dstLength || EndsWithin(c, s.sched.zones, s.dstLength) {
      forall after | FullWrites(after) ensures SameRun(c, s, Reopen(s), after) {
        UnblindRun(c, s, after);
        if s.dstEnd != s.dstLength { RunWithin(c, s, after, s.dstLength); }
      }
    } else {
      var i := PastEnd(c, s.sched.zones, s.dstLength);
      var os := ReverseReadsBeyond(c, s, i, s.dstLength);
      UnblindRun(c, s, os);
    }
  }

  // ----- when one is not, it shows -----

  /** Correcting one begin flag makes a list what the journal says. */
  lemma CorrectedParse(zones: seq<Zone>, journal: seq<SectorStatus>, j: nat)
    requires Tracks(zones, journal) && EndFlagsMatch(zones, journal) && BeginsBut(zones, journal, j)
    requires j < |zones| && !zones[j].beginBad && !BeginMatches(zones[j], journal)
    ensures Parse(journal).zones == zones[j := zones[j].(beginBad := true)]
  {
    var right := zones[j := zones[j].(beginBad := true)];
    CorrectedTracks(zones, journal, j);
    forall i | 0 <= i < |right| ensures BeginMatches(right[i], journal) {
      assert i != j ==> BeginMatches(zones[i], journal);
    }
    AllBegins(right, journal);
    hide Tracks, BeginsBut, BeginMatches, BeginFlagsMatch;
    ParseIs(right, journal);
  }

  lemma CorrectedTracks(zones: seq<Zone>, journal: seq<SectorStatus>, j: nat)
    requires Tracks(zones, journal) && j < |zones|
    ensures Tracks(zones[j := zones[j].(beginBad := true)], journal)
  {
    var right := zones[j := zones[j].(beginBad := true)];
    forall k | 0 <= k < |journal| ensures journal[k] == Unread <==> Covered(right, k) {
      UpdateCovers(zones, j, right[j], k);
    }
  }

  lemma BlindZones(c: Config, s: Copy)
    requires Reversing(c) && Explained(c, s) && Blind(c, s)
    ensures var j := FirstLive(c, s.sched.zones, 0);
            Reopen(s).sched == Sched(s.sched.zones[j := s.sched.zones[j].(beginBad := true)], None, false, 0)
  {
    hide Tracks, EndFlagsMatch, BeginMatches, Refound, FirstLive, Parse;
    BlindBegins(c, s.sched.zones, s.journal);
    CorrectedParse(s.sched.zones, s.journal, FirstLive(c, s.sched.zones, 0));
  }

  /** smart with nothing but defective borders does not go on at a long zone behind the first. */
  lemma SmartGoesElsewhere(c: Config, zones: seq<Zone>, j: nat)
    requires c.strategy == Smart && Gapped(zones) && AllStuck(c, zones)
    requires 0 < j < |zones|
    ensures NextTask(c, Sched(zones, None, false, 0)).Some?
    ensures NextTask(c, Sched(zones, None, false, 0)).value.lba != zones[j].begin
  {
    var s, k := Sched(zones, None, false, 0), LargestOf(zones, |zones|);
    FirstLiveIs(c, zones, |zones|);
    if MaySplit(zones, k) {
      SmartJumpLands(c, s, k);
      MidPointInside(zones[k]);
      assert zones[k].begin < NextTask(c, s).value.lba < zones[k].end;
      assert j == k || (if j < k then zones[j].end <= zones[k].begin else zones[k].end <= zones[j].begin);
    }
  }

  lemma SkipTaskIn(c: Config, s: Sched, i: nat)
    requires c.strategy == Skipfail && ConfigOk(c) && Gapped(s.zones) && i < |s.zones| && !Stuck(c, s.zones, i)
    ensures Proceed(SkipfailAt(c, s, i)).lba >= s.zones[i].begin
  {
    if Length(s.zones[i]) > c.skipBlocks * SECTORS_AT_ONCE { SkipPointInside(c, s.zones[i]); }
  }

  /** When skipfail, believing a zone begins defective, still goes on with its first block. */
  lemma SkipGoesOn(c: Config, zones: seq<Zone>, j: nat)
    requires c.strategy == Skipfail && ConfigOk(c) && Gapped(zones) && j < |zones| && zones[j].beginBad
    requires (zones[j].endBad || j + 1 == |zones|) && zones[j].begin % SECTORS_AT_ONCE == 0
    requires forall k | 0 <= k < j :: Stuck(c, zones, k)
    ensures var z := zones[j];
            var n := if Length(z) < SECTORS_AT_ONCE then Length(z) else SECTORS_AT_ONCE;
            NextTask(c, Sched(zones, None, false, 0)) == Some(Task(z.begin, n))
            <==> c.skipBlocks == 1 && Length(z) > SECTORS_AT_ONCE
  {
    var s, z := Sched(zones, None, false, 0), zones[j];
    if Stuck(c, zones, j) {
      var i := FirstLive(c, zones, 0);
      if i < |zones| {
        SkipTaskIn(c, s, i);
        assert z.end <= zones[i].begin;
      }
    } else {
      FirstLiveIs(c, zones, j);
      WholeSkip(c, z);
    }
  }

  lemma WholeSkip(c: Config, z: Zone)
    requires z.begin % SECTORS_AT_ONCE == 0
    ensures SkipPoint(c, z) == z.begin + c.skipBlocks * SECTORS_AT_ONCE
  {
  }

  /** Right after a failed first read behind a split the resumed copy goes on with another block
      than the running one, except that skipfail with skip_blocks 1 jumps onto the same one. */
  lemma BlindNext(c: Config, s: Copy)
    requires Reversing(c) && Explained(c, s) && Blind(c, s)
    ensures |Reopen(s).sched.zones| == |s.sched.zones| > 0
    ensures var z := s.sched.zones[FirstLive(c, s.sched.zones, 0)];
            NextTask(c, Reopen(s).sched) == NextTask(c, s.sched) <==>
            c.strategy == Skipfail && c.skipBlocks == 1 && Length(z) > SECTORS_AT_ONCE
  {
    var zones, j := s.sched.zones, FirstLive(c, s.sched.zones, 0);
    var right := zones[j := zones[j].(beginBad := true)];
    BlindZones(c, s);
    GoodBeginChosen(c, s.sched);
    hide Choose;
    forall k: nat | k < j || (c.strategy == Smart && k < |zones|) ensures Stuck(c, right, k) {
      assert k != j ==> Stuck(c, zones, k);
    }
    if c.strategy == Smart { SmartGoesElsewhere(c, right, j); } else { SkipGoesOn(c, right, j); }
  }

  // ----- skip_blocks 1: the two copies take turns at being right, until they part -----

  /** `a` takes the begin of its first live zone `j` for good, `b` for bad; nothing else differs. */
  ghost predicate AtOdds(c: Config, a: Copy, b: Copy, j: nat) {
    && Valid(c, a) && Valid(c, b) && a.num < a.den && b.num < b.den && RoomFor(c, a) && RoomFor(c, b)
    && a.sched.stage == b.sched.stage == 0 && a.sched.current == b.sched.current == None
    && j < |a.sched.zones| && b.sched.zones == a.sched.zones[j := a.sched.zones[j].(beginBad := true)]
    && !a.sched.zones[j].beginBad && (a.sched.zones[j].endBad || j + 1 == |a.sched.zones|)
    && a.sched.zones[j].begin % SECTORS_AT_ONCE == 0
    && forall k | 0 <= k < j :: Stuck(c, a.sched.zones, k)
  }

  lemma OddsStuck(c: Config, a: Copy, b: Copy, j: nat)
    requires c.strategy == Skipfail && AtOdds(c, a, b, j)
    ensures forall k | 0 <= k < j :: Stuck(c, b.sched.zones, k)
  {
    forall k | 0 <= k < j ensures Stuck(c, b.sched.zones, k) { assert Stuck(c, a.sched.zones, k); }
  }

  lemma OddsFirst(c: Config, a: Copy, b: Copy, j: nat)
    requires c.strategy == Skipfail && AtOdds(c, a, b, j) && Length(a.sched.zones[j]) > SECTORS_AT_ONCE
    ensures var z, r := a.sched.zones[j], Step(c, a, ReadFailed);
            && r.Done? && r.task == Task(z.begin, SECTORS_AT_ONCE) && !r.abort && RoomFor(c, r.next)
                 && r.next.num < r.next.den
            && r.next.sched.zones == a.sched.zones[j := z.(begin := z.begin + SECTORS_AT_ONCE, beginBad := true)]
            && r.next.sched.current == None && r.next.sched.stage == 0
  {
    hide Step, Valid;
    FirstLiveIs(c, a.sched.zones, j);
    GoodBeginChosen(c, a.sched);
    hide Choose, Stuck;
    StepIs(c, a, ReadFailed, a.sched.(current := Some(j), reverse := false));
    HasTotal(c, Step(c, a, ReadFailed).next);
  }

  lemma OddsSecond(c: Config, a: Copy, b: Copy, j: nat)
    requires c.strategy == Skipfail && c.skipBlocks == 1 && AtOdds(c, a, b, j)
             && Length(a.sched.zones[j]) > SECTORS_AT_ONCE
    ensures var z, r := a.sched.zones[j], Step(c, b, ReadFailed);
            && r.Done? && r.task == Task(z.begin, SECTORS_AT_ONCE) && !r.abort && RoomFor(c, r.next)
                 && r.next.num < r.next.den
            && r.next.sched.zones == a.sched.zones[j := z.(begin := z.begin + SECTORS_AT_ONCE)]
            && r.next.sched.current == None && r.next.sched.stage == 0
  {
    hide Step, Valid;
    var z, chosen := b.sched.zones[j], SkipfailAt(c, b.sched, j);
    OddsStuck(c, a, b, j);
    WholePieceRead(c, b.sched, j);
    hide Choose, Stuck, SkipfailAt, UseResults, Proceed;
    StepIs(c, b, ReadFailed, chosen);
    assert b.sched.zones[j := z.(begin := z.begin + SECTORS_AT_ONCE, beginBad := false)]
        == a.sched.zones[j := a.sched.zones[j].(begin := z.begin + SECTORS_AT_ONCE)];
    HasTotal(c, Step(c, b, ReadFailed).next);
  }

  /** With skip_blocks 1 the piece jumped over is one block, read and done with at once. */
  lemma WholePieceRead(c: Config, s: Sched, j: nat)
    requires c.strategy == Skipfail && c.skipBlocks == 1 && s.current == None && j < |s.zones|
    requires var z := s.zones[j];
             && z.beginBad && (z.endBad || j + 1 == |s.zones|) && z.begin % SECTORS_AT_ONCE == 0
             && Length(z) > SECTORS_AT_ONCE
    requires forall k | 0 <= k < j :: Stuck(c, s.zones, k)
    ensures var z, s1 := s.zones[j], SkipfailAt(c, s, j);
            && Choose(c, s) == Some(s1) && s1.current.Some? && s1.current.value < |s1.zones|
            && Proceed(s1) == Task(z.begin, SECTORS_AT_ONCE)
            && UseResults(c, s1, SECTORS_AT_ONCE, true) ==
               Sched(s.zones[j := z.(begin := z.begin + SECTORS_AT_ONCE, beginBad := false)], None, true, s.stage)
  {
    var z, s1 := s.zones[j], SkipfailAt(c, s, j);
    FirstLiveIs(c, s.zones, j);
    WholeSkip(c, z);
    SplitAt(s.zones, j, SkipPoint(c, z));
    hide Choose, Stuck, SplitZone, SkipPoint;
    assert Without(s1.zones, j) == s.zones[j := z.(begin := z.begin + SECTORS_AT_ONCE, beginBad := false)];
  }

  lemma OddsSwap(c: Config, a: Copy, b: Copy, x: Copy, y: Copy, j: nat)
    requires c.strategy == Skipfail && AtOdds(c, a, b, j) && Length(a.sched.zones[j]) > SECTORS_AT_ONCE
    requires Valid(c, x) && Valid(c, y) && x.num < x.den && y.num < y.den && RoomFor(c, x) && RoomFor(c, y)
    requires x.sched.stage == y.sched.stage == 0 && x.sched.current == y.sched.current == None
    requires var z := a.sched.zones[j].(begin := a.sched.zones[j].begin + SECTORS_AT_ONCE);
             y.sched.zones == a.sched.zones[j := z] && x.sched.zones == a.sched.zones[j := z.(beginBad := true)]
    ensures AtOdds(c, y, x, j) && Length(y.sched.zones[j]) < Length(a.sched.zones[j])
  {
    hide Valid;
    forall k | 0 <= k < j ensures Stuck(c, y.sched.zones, k) { assert Stuck(c, a.sched.zones, k); }
  }

  lemma OddsLast(c: Config, a: Copy, b: Copy, j: nat)
    requires c.strategy == Skipfail && AtOdds(c, a, b, j) && Length(a.sched.zones[j]) <= SECTORS_AT_ONCE
    ensures FullWrites([Copied]) && !SameRun(c, a, b, [Copied]) && !SameRun(c, b, a, [Copied])
  {
    hide Step, Run, SameRun;
    OddsStuck(c, a, b, j);
    FirstLiveIs(c, a.sched.zones, j);
    GoodBeginChosen(c, a.sched);
    SkipGoesOn(c, b.sched.zones, j);
    ForgetDirection(c, b.sched);
    hide Choose, Stuck;
    OtherBlock(c, a, b);
    OtherBlock(c, b, a);
  }

  lemma {:induction false} OddsPart(c: Config, a: Copy, b: Copy, j: nat) returns (after: seq<Outcome>)
    requires c.strategy == Skipfail && c.skipBlocks == 1 && AtOdds(c, a, b, j)
    ensures FullWrites(after) && !SameRun(c, a, b, after) && !SameRun(c, b, a, after)
    decreases Length(a.sched.zones[j])
  {
    hide Step, Run, SameRun, Stuck, FirstLive, Choose, Valid;
    var z := a.sched.zones[j];
    if Length(z) <= SECTORS_AT_ONCE {
      OddsLast(c, a, b, j);
      after := [Copied];
    } else {
      OddsFirst(c, a, b, j);
      OddsSecond(c, a, b, j);
      var x, y := Step(c, a, ReadFailed).next, Step(c, b, ReadFailed).next;
      OddsSwap(c, a, b, x, y, j);
      var rest := OddsPart(c, y, x, j);
      LaterBlock(c, a, b, ReadFailed, rest);
      LaterBlock(c, b, a, ReadFailed, rest);
      after := [ReadFailed] + rest;
    }
  }

  lemma BlindShows(c: Config, s: Copy) returns (after: seq<Outcome>)
    requires Reversing(c) && Explained(c, s) && Blind(c, s) && RoomFor(c, s) && s.dstEnd == s.dstLength
    ensures Valid(c, Reopen(s)) && FullWrites(after) && !SameRun(c, s, Reopen(s), after)
  {
    hide Run, SameRun;
    ReopenValid(c, s);
    LiveIsParsed(s.sched.zones, s.journal);
    BlindNext(c, s);
    HasTotal(c, s);
    if NextTask(c, Reopen(s).sched) != NextTask(c, s.sched) {
      OtherBlock(c, s, Reopen(s));
      after := [Copied];
    } else {
      var j := FirstLive(c, s.sched.zones, 0);
      BlindZones(c, s);
      after := OddsPart(c, s, Reopen(s), j);
    }
  }

  /** smart in stage 0 and skipfail, stopped anywhere, with room at a destination that keeps its
      size: resuming is invisible for every pattern of later read errors if and only if the flags
      of the zone the search goes on with are what the journal says. */
  lemma ReverseResumeExactly(c: Config, s: Copy)
    requires Reversing(c) && Explained(c, s) && s.sched.stage == 0 && RoomFor(c, s) && s.dstEnd == s.dstLength >= 0
    ensures Valid(c, Reopen(s))
    ensures (forall after | FullWrites(after) :: SameRun(c, s, Reopen(s), after)) <==> !Blind(c, s)
  {
    hide Run, SameRun, Explained, Blind;
    ExplainedParts(c, s);
    ReopenValid(c, s);
    if Blind(c, s) {
      var after := BlindShows(c, s);
    } else {
      forall after | FullWrites(after) ensures SameRun(c, s, Reopen(s), after) { UnblindRun(c, s, after); }
    }
  }
}
