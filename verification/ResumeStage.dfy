/** Resuming smart out of its stage 1, which the journal does not remember; and all strategies together. */
module ResumeStage {
  import opened CopyTypes
  import opened ReadStrategies
  import opened ZoneCover
  import opened JournalParser
  import opened CopyRun
  import opened CopyBounds
  import opened CopyHistory
  import opened CopyResume
  import opened CopyOrder
  import opened ResumeRoom
  import opened ResumeReverse

  // ----- the zones of stage 1 -----

  /** Every readable border is defective, but for the begin of the first zone. */
  ghost predicate Spent(c: Config, zones: seq<Zone>) {
    && (forall i | 0 < i < |zones| :: zones[i].beginBad)
    && (c.strategy == Smart ==> forall i | 0 <= i < |zones| :: zones[i].endBad)
  }

  /** In stage 1 only the first zone can have a good begin, and only while it is current. */
  ghost predicate StageShape(c: Config, s: Sched) {
    s.stage == 1 ==>
      && Sequential(c, s) && Spent(c, s.zones)
      && (s.current == None && |s.zones| > 0 ==> s.zones[0].beginBad)
  }

  lemma ConsumeSpent(c: Config, s: Sched, failed: bool)
    requires Near(s) && s.current == Some(0) && !s.reverse && Spent(c, s.zones)
    ensures Spent(c, Consume(s, Proceed(s).sectors, failed).zones)
  {
    var zones := Consume(s, Proceed(s).sectors, failed).zones;
    forall j | 0 <= j < |zones| ensures (j > 0 ==> zones[j].beginBad) && (c.strategy == Smart ==> zones[j].endBad) {
      var i := ConsumedFrom(s, failed, j);
    }
  }

  lemma UseStageShape(c: Config, s: Sched, failed: bool)
    requires IsSmart(c) && s.stage == 1 && Near(s) && s.current == Some(0) && !s.reverse && Spent(c, s.zones)
    ensures StageShape(c, UseResults(c, s, Proceed(s).sectors, failed))
  {
    ConsumeSpent(c, s, failed);
    TaskInZone(s);
    hide Spent;
    var s' := UseResults(c, s, Proceed(s).sectors, failed);
    if s'.current == None && |s'.zones| > 0 {
      assert s.zones[1].beginBad by { SpentAt(c, s.zones, 1); }
    }
  }

  lemma SpentAt(c: Config, zones: seq<Zone>, i: nat)
    requires Spent(c, zones) && 0 < i < |zones|
    ensures zones[i].beginBad
  {
  }

  lemma SurrenderOrStage(c: Config, s: Sched)
    requires IsSmart(c) && CursorOk(s) && |s.zones| > 0 && StageShape(c, s) && !(s.stage == 1 && s.reverse)
    requires s.stage == 0 || s.stage == 1
    ensures SmartChoose(c, s).Some?
    ensures var s1 := SmartChoose(c, s).value;
            s1.stage == 1 ==> s1.zones == s.zones && s1.current == Some(0) && !s1.reverse && Spent(c, s.zones)
  {
    if s.stage == 0 { SmartSurrender(c, s); }
  }

  lemma StepStageShape(c: Config, s: Copy, o: Outcome)
    requires IsSmart(c) && Valid(c, s) && s.num < s.den && StageShape(c, s.sched)
    ensures Step(c, s, o).Done? ==> StageShape(c, Step(c, s, o).next.sched)
  {
    hide Choose, UseResults, SmartChoose, Spent;
    HasZones(c, s);
    if Step(c, s, o).Done? {
      ProcessOk(c, s, o);
      SmartIsChosen(c, s.sched);
      SurrenderOrStage(c, s.sched);
      var s1 := Choose(c, s.sched).value;
      UseKeepsStage(c, s1, Proceed(s1).sectors, BlockFailed(o));
      if s1.stage == 1 { UseStageShape(c, s1, BlockFailed(o)); }
    }
  }

  lemma UseKeepsStage(c: Config, s: Sched, n: int, failed: bool)
    requires s.current.Some? && s.current.value < |s.zones|
    ensures UseResults(c, s, n, failed).stage == s.stage
  {
  }

  lemma {:induction false} RunStageShape(c: Config, s: Copy, os: seq<Outcome>)
    requires IsSmart(c) && Valid(c, s) && StageShape(c, s.sched)
    ensures Run(c, s, os).ending != GaveUp ==> StageShape(c, Run(c, s, os).final.sched)
    decreases |os|
  {
    hide Step;
    if s.num < s.den && os != [] {
      StepStageShape(c, s, os[0]);
      var r := Step(c, s, os[0]);
      if r.Done? { RunStageShape(c, r.next, os[1..]); }
    }
  }

  /** What the theorems about stopped copies start from; every run keeps it. */
  ghost predicate Traced(c: Config, s: Copy) {
    && (if Forward(c) then Resumable(c, s) else Explained(c, s))
    && (IsSmart(c) ==> StageShape(c, s.sched))
  }

  lemma ReopenTraced(c: Config, s: Copy)
    requires ConfigOk(c) && |s.journal| == |s.dst| == |c.source|
    ensures Traced(c, Reopen(s)) && Reopen(s).sched.stage == 0
  {
    if Forward(c) { ReopenResumable(c, s); } else { ReopenExplained(c, s); }
  }

  lemma RunTraced(c: Config, s: Copy, os: seq<Outcome>)
    requires Traced(c, s) && FullWrites(os)
    ensures Valid(c, s)
    ensures Run(c, s, os).ending != GaveUp ==> Traced(c, Run(c, s, os).final)
  {
    hide Run;
    if Forward(c) { RunResumable(c, s, os); } else { RunExplained(c, s, os); }
    if IsSmart(c) { RunStageShape(c, s, os); }
  }

  /** The journal gives back the zones of stage 1, as far as the strategy looks at them. */
  lemma ReopenSpent(c: Config, s: Copy)
    requires IsSmart(c) && Traced(c, s) && s.sched.stage == 1
    ensures Alike(s.sched.zones, Reopen(s).sched.zones) && Spent(c, Reopen(s).sched.zones)
  {
    if c.strategy == Smart {
      UnblindZones(c, s);
    } else {
      ReopenAlike(c, s);
      forall i | 0 < i < |s.sched.zones| ensures Reopen(s).sched.zones[i].beginBad {
        assert s.sched.zones[i].(endBad := false) == Reopen(s).sched.zones[i].(endBad := false);
      }
    }
  }

  // ----- the next block -----

  /** The zones would let a fresh search jump again. */
  predicate JumpPossible(zones: seq<Zone>)
    requires |zones| > 0
  {
    zones[0].beginBad && MaySplit(zones, LargestOf(zones, |zones|))
  }

  lemma SpentStuck(c: Config, zones: seq<Zone>)
    requires IsSmart(c) && Spent(c, zones) && |zones| > 0
    ensures zones[0].beginBad ==> AllStuck(c, zones) && FirstLive(c, zones, 0) == |zones|
    ensures !zones[0].beginBad ==> FirstLive(c, zones, 0) == 0
  {
    if zones[0].beginBad {
      forall i | 0 <= i < |zones| ensures Stuck(c, zones, i) {}
      FirstLiveIs(c, zones, |zones|);
    }
  }

  /** What a fresh search makes of such zones: it jumps, or takes the first zone forward. */
  lemma SpentChoice(c: Config, zones: seq<Zone>)
    requires IsSmart(c) && Spent(c, zones) && |zones| > 0 && Gapped(zones)
    ensures var s := Sched(zones, None, false, 0);
            if JumpPossible(zones) then NextTask(c, s).Some? && NextTask(c, s).value.lba > zones[0].begin
            else Choose(c, s) == Some(Sched(zones, Some(0), false, if zones[0].beginBad then 1 else 0))
  {
    SpentStuck(c, zones);
    hide Stuck, FirstLive;
    var s, k := Sched(zones, None, false, 0), LargestOf(zones, |zones|);
    if JumpPossible(zones) {
      SmartJumpLands(c, s, k);
      MidPointInside(zones[k]);
      assert zones[0].begin <= zones[k].begin;
    }
  }

  lemma AlikeJump(a: seq<Zone>, b: seq<Zone>)
    requires Alike(a, b) && |a| > 0
    ensures JumpPossible(a) <==> JumpPossible(b)
    ensures Proceed(Sched(a, Some(0), false, 1)) == Proceed(Sched(b, Some(0), false, 1))
    ensures a[0].begin == b[0].begin && a[0].beginBad == b[0].beginBad
  {
    AlikeLargest(a, b);
    AlikeLength(a, b, LargestOf(a, |a|));
    assert a[0].(endBad := false) == b[0].(endBad := false);
  }

  lemma StageOneChoice(c: Config, s: Copy)
    requires IsSmart(c) && Valid(c, s) && |s.sched.zones| > 0 && s.sched.stage == 1 && Sequential(c, s.sched)
    ensures Choose(c, s.sched) == Some(Sched(s.sched.zones, Some(0), false, 1))
  {
  }

  /** A copy stopped in stage 1 forgets the stage. The resumed one goes on with the same block
      exactly when its zones do not let it jump again. */
  lemma StageOneResume(c: Config, s: Copy)
    requires IsSmart(c) && Traced(c, s) && s.num < s.den && s.sched.stage == 1
    ensures |s.sched.zones| > 0 && |Reopen(s).sched.zones| > 0
    ensures NextTask(c, Reopen(s).sched) == NextTask(c, s.sched) <==> !JumpPossible(s.sched.zones)
  {
    hide JumpPossible;
    HasZones(c, s);
    ReopenSpent(c, s);
    AlikeJump(s.sched.zones, Reopen(s).sched.zones);
    StageOneChoice(c, s);
    SpentChoice(c, Reopen(s).sched.zones);
  }

  // ----- the whole run after a stop in stage 1 -----

  predicate SomeLong(zones: seq<Zone>, from: nat) {
    exists i | from <= i < |zones| :: Length(zones[i]) > INDIVISIBLE_DEFECT_ZONE_SIZE_SECTORS
  }

  /** The read errors may yet bring the resumed copy to a jump: it is before one now, or it will be
      once the first zone, whose begin is still good, fails or has been read. */
  predicate LossVisible(zones: seq<Zone>) {
    && |zones| > 0
    && if zones[0].beginBad then |zones| < MAX_ZONES && SomeLong(zones, 0)
       else
         || (|zones| < MAX_ZONES && Length(zones[0]) > INDIVISIBLE_DEFECT_ZONE_SIZE_SECTORS + SECTORS_AT_ONCE)
         || (|zones| <= MAX_ZONES && SomeLong(zones, 1))
  }

  lemma JumpVisible(zones: seq<Zone>)
    requires |zones| > 0 && zones[0].beginBad
    ensures LossVisible(zones) <==> JumpPossible(zones)
  {
    var k := LargestOf(zones, |zones|);
    if SomeLong(zones, 0) {
      var i :| 0 <= i < |zones| && Length(zones[i]) > INDIVISIBLE_DEFECT_ZONE_SIZE_SECTORS;
      assert Length(zones[i]) <= Length(zones[k]);
    }
  }

  /** The zones after one forward block of the first one. */
  function NextZones(zones: seq<Zone>, failed: bool): seq<Zone>
    requires |zones| > 0
  {
    var z := zones[0];
    if Length(z) <= SECTORS_AT_ONCE then zones[1..]
    else zones[0 := z.(begin := z.begin + SECTORS_AT_ONCE, beginBad := failed)]
  }

  lemma LongIn(zones: seq<Zone>, from: nat, i: nat)
    requires from <= i < |zones| && Length(zones[i]) > INDIVISIBLE_DEFECT_ZONE_SIZE_SECTORS
    ensures SomeLong(zones, from)
  {
  }

  /** While the first zone is read, what cannot become visible never does... */
  lemma LossStaysHidden(c: Config, zones: seq<Zone>, failed: bool)
    requires |zones| > 0 && Spent(c, zones) && !zones[0].beginBad && !LossVisible(zones)
    ensures !LossVisible(NextZones(zones, failed))
  {
    var next := NextZones(zones, failed);
    if SomeLong(next, 0) {
      var i :| 0 <= i < |next| && Length(next[i]) > INDIVISIBLE_DEFECT_ZONE_SIZE_SECTORS;
      if Length(zones[0]) <= SECTORS_AT_ONCE { LongIn(zones, 1, i + 1); } else if i > 0 { LongIn(zones, 1, i); }
    }
  }

  /** ...and what can does, with the right outcome of the next block. */
  lemma LossComesNearer(c: Config, zones: seq<Zone>) returns (failed: bool)
    requires |zones| > 0 && Spent(c, zones) && !zones[0].beginBad && LossVisible(zones) && Length(zones[0]) > 0
    ensures |NextZones(zones, failed)| > 0 && LossVisible(NextZones(zones, failed))
  {
    failed := |zones| < MAX_ZONES && Length(zones[0]) > INDIVISIBLE_DEFECT_ZONE_SIZE_SECTORS + SECTORS_AT_ONCE;
    var next := NextZones(zones, failed);
    if failed {
      LongIn(next, 0, 0);
    } else {
      var i :| 1 <= i < |zones| && Length(zones[i]) > INDIVISIBLE_DEFECT_ZONE_SIZE_SECTORS;
      if Length(zones[0]) <= SECTORS_AT_ONCE { LongIn(next, 0, i - 1); } else { LongIn(next, 1, i); }
    }
  }

  /** `a` is in stage 1; `b` has the same zones and has forgotten it. */
  ghost predicate Lagging(c: Config, a: Copy, b: Copy) {
    && Valid(c, a) && Valid(c, b) && a.journal == b.journal && a.dst == b.dst
    && a.dstLength == b.dstLength && a.dstEnd == b.dstEnd && a.den - a.num == b.den - b.num
    && a.sched.stage == 1 && Sequential(c, a.sched) && Alike(a.sched.zones, b.sched.zones)
    && b.sched.stage == 0 && !b.sched.reverse && Spent(c, b.sched.zones)
    && (b.sched.current == None || (b.sched.current == Some(0) && !b.sched.zones[0].beginBad))
  }

  /** Both are in stage 1. */
  ghost predicate Level(c: Config, a: Copy, b: Copy) {
    && Valid(c, a) && Valid(c, b) && a.journal == b.journal && a.dst == b.dst
    && a.dstLength == b.dstLength && a.dstEnd == b.dstEnd && a.den - a.num == b.den - b.num
    && a.sched.stage == b.sched.stage == 1 && Sequential(c, a.sched) && Sequential(c, b.sched)
    && Alike(a.sched.zones, b.sched.zones)
  }

  lemma AlikeConsume(a: Sched, b: Sched, failed: bool)
    requires Alike(a.zones, b.zones) && a.current == b.current == Some(0) && !a.reverse && !b.reverse
    requires |a.zones| > 0 && Length(a.zones[0]) > 0
    ensures Proceed(a) == Proceed(b)
    ensures Alike(Consume(a, Proceed(a).sectors, failed).zones, Consume(b, Proceed(a).sectors, failed).zones)
    ensures Consume(b, Proceed(a).sectors, failed).zones == NextZones(b.zones, failed)
  {
    assert a.zones[0].(endBad := false) == b.zones[0].(endBad := false);
    var x, y := Consume(a, Proceed(a).sectors, failed).zones, Consume(b, Proceed(a).sectors, failed).zones;
    forall j | 0 <= j < |x| ensures x[j].(endBad := false) == y[j].(endBad := false) {
      assert a.zones[j].(endBad := false) == b.zones[j].(endBad := false);
      if j + 1 < |a.zones| { assert a.zones[j + 1].(endBad := false) == b.zones[j + 1].(endBad := false); }
    }
  }

  /** Two schedulers that take the first zone forward do the same to their copies. */
  lemma FirstZoneStep(c: Config, a: Copy, b: Copy, o: Outcome, x: Sched, y: Sched)
    requires IsSmart(c) && Valid(c, a) && Valid(c, b) && a.num < a.den && b.num < b.den
    requires a.journal == b.journal && a.dst == b.dst && a.dstLength == b.dstLength && a.dstEnd == b.dstEnd
    requires a.den - a.num == b.den - b.num
    requires |a.sched.zones| > 0 && |b.sched.zones| > 0
    requires Choose(c, a.sched) == Some(x) && Choose(c, b.sched) == Some(y)
    requires x.zones == a.sched.zones && y.zones == b.sched.zones && Alike(x.zones, y.zones)
    requires x.current == y.current == Some(0) && !x.reverse && !y.reverse
    ensures var r, q, failed := Step(c, a, o), Step(c, b, o), BlockFailed(o);
            && (r.Done? <==> q.Done?) && !(r.Done? && r.abort) && !(q.Done? && q.abort)
            && r.next.journal == q.next.journal && r.next.dst == q.next.dst
            && r.next.dstLength == q.next.dstLength && r.next.dstEnd == q.next.dstEnd == a.dstEnd
            && (r.Done? ==>
                  && r.task == q.task && r.next.den - r.next.num == q.next.den - q.next.num
                  && r.next.sched == UseResults(c, x, r.task.sectors, failed)
                  && q.next.sched == UseResults(c, y, r.task.sectors, failed)
                  && Alike(r.next.sched.zones, q.next.sched.zones) && q.next.sched.zones == NextZones(y.zones, failed))
  {
    hide Choose, UseResults, Consume, Proceed, Alike, NextZones;
    ProcessOk(c, a, o);
    ProcessOk(c, b, o);
    AlikeConsume(x, y, BlockFailed(o));
    ModeKept(c, a.sched, Proceed(x).sectors, BlockFailed(o));
    ModeKept(c, b.sched, Proceed(x).sectors, BlockFailed(o));
  }

  lemma LevelStep(c: Config, a: Copy, b: Copy, o: Outcome)
    requires IsSmart(c) && Level(c, a, b) && a.num < a.den
    ensures var r, q := Step(c, a, o), Step(c, b, o);
            && (r.Done? <==> q.Done?)
            && r.next.journal == q.next.journal && r.next.dst == q.next.dst && r.next.dstLength == q.next.dstLength
            && (r.Done? ==> r.task == q.task && !r.abort && !q.abort && Level(c, r.next, q.next))
  {
    hide Choose, Step, Valid, Alike;
    HasZones(c, a);
    HasZones(c, b);
    StageOneChoice(c, a);
    StageOneChoice(c, b);
    FirstZoneStep(c, a, b, o, Choose(c, a.sched).value, Choose(c, b.sched).value);
  }

  lemma {:induction false} LevelRun(c: Config, a: Copy, b: Copy, os: seq<Outcome>)
    requires IsSmart(c) && Level(c, a, b)
    ensures SameRun(c, a, b, os)
    decreases |os|
  {
    hide Step;
    if a.num < a.den && os != [] {
      LevelStep(c, a, b, os[0]);
      var r, q := Step(c, a, os[0]), Step(c, b, os[0]);
      if r.Done? { LevelRun(c, r.next, q.next, os[1..]); }
    }
  }

  lemma LaggingChoice(c: Config, a: Copy, b: Copy)
    requires IsSmart(c) && Lagging(c, a, b) && |b.sched.zones| > 0 && !JumpPossible(b.sched.zones)
    ensures var s := Sched(b.sched.zones, Some(0), false, if b.sched.zones[0].beginBad then 1 else 0);
            Choose(c, b.sched) == Some(s) && Near(s)
  {
    hide JumpPossible;
    if b.sched.current == None { SpentChoice(c, b.sched.zones); }
    KeepNear(Choose(c, b.sched).value);
  }

  /** One block of a copy in stage 1 and of one that lags behind it but does not jump. */
  lemma LagStep(c: Config, a: Copy, b: Copy, o: Outcome)
    requires IsSmart(c) && Lagging(c, a, b) && a.num < a.den
    ensures |b.sched.zones| > 0 && b.num < b.den
    ensures var r, q, zones := Step(c, a, o), Step(c, b, o), b.sched.zones;
            !JumpPossible(zones) ==>
              && (r.Done? <==> q.Done?)
              && r.next.journal == q.next.journal && r.next.dst == q.next.dst && r.next.dstLength == q.next.dstLength
              && r.next.dstEnd == a.dstEnd
              && (r.Done? ==>
                    && r.task == q.task && !r.abort && !q.abort
                    && (if zones[0].beginBad then Level(c, r.next, q.next)
                        else Lagging(c, r.next, q.next) && q.next.sched.zones == NextZones(zones, BlockFailed(o))))
  {
    hide Choose, Step, Valid, Alike, JumpPossible, NextZones;
    HasZones(c, a);
    HasZones(c, b);
    if !JumpPossible(b.sched.zones) {
      StageOneChoice(c, a);
      LaggingChoice(c, a, b);
      var y := Choose(c, b.sched).value;
      FirstZoneStep(c, a, b, o, Choose(c, a.sched).value, y);
      hide Spent, Sequential;
      LagUse(c, Choose(c, a.sched).value, y, Proceed(y).sectors, BlockFailed(o));
      if Step(c, a, o).Done? && !y.zones[0].beginBad { ConsumeSpent(c, y, BlockFailed(o)); }
    }
  }

  /** How the block leaves the scheduler in stage 1 and the one that has forgotten it. */
  lemma LagUse(c: Config, x: Sched, y: Sched, n: int, failed: bool)
    requires IsSmart(c) && |x.zones| > 0 && |y.zones| > 0 && x.current == y.current == Some(0)
    requires !x.reverse && !y.reverse && x.stage == 1 && (y.stage == 0 || y.stage == 1)
    ensures var x', y' := UseResults(c, x, n, failed), UseResults(c, y, n, failed);
            && x'.stage == 1 && Sequential(c, x') && !x'.reverse && y'.stage == y.stage && !y'.reverse
            && y'.zones == Consume(y, n, failed).zones
            && (y.stage == 1 ==> Sequential(c, y'))
            && (y.stage == 0 ==>
                  y'.current == None || (y'.current == Some(0) && |y'.zones| > 0 && !y'.zones[0].beginBad))
  {
  }

  lemma {:induction false} HiddenRun(c: Config, a: Copy, b: Copy, os: seq<Outcome>)
    requires IsSmart(c) && Lagging(c, a, b) && !LossVisible(b.sched.zones)
    ensures SameRun(c, a, b, os)
    decreases |os|
  {
    hide Step, LossVisible, JumpPossible, NextZones;
    if a.num < a.den && os != [] {
      LagStep(c, a, b, os[0]);
      var zones := b.sched.zones;
      if zones[0].beginBad { JumpVisible(zones); } else { GoodBeginStays(zones); }
      var r, q := Step(c, a, os[0]), Step(c, b, os[0]);
      if r.Done? {
        if zones[0].beginBad {
          LevelRun(c, r.next, q.next, os[1..]);
        } else {
          LossStaysHidden(c, zones, BlockFailed(os[0]));
          HiddenRun(c, r.next, q.next, os[1..]);
        }
      }
    }
  }

  lemma GoodBeginStays(zones: seq<Zone>)
    requires |zones| > 0 && !zones[0].beginBad
    ensures !JumpPossible(zones)
  {
  }

  lemma {:induction false} LossShows(c: Config, a: Copy, b: Copy) returns (after: seq<Outcome>)
    requires IsSmart(c) && Lagging(c, a, b) && LossVisible(b.sched.zones) && RoomFor(c, a)
    ensures FullWrites(after) && !SameRun(c, a, b, after)
    decreases a.den - a.num
  {
    hide Step, Run, SameRun, LossVisible, JumpPossible, NextZones, Choose;
    var zones := b.sched.zones;
    SomeZones(zones);
    HasTotal(c, b);
    if zones[0].beginBad {
      JumpVisible(zones);
      StageOneChoice(c, a);
      SpentChoice(c, zones);
      AlikeJump(a.sched.zones, zones);
      OtherBlock(c, a, b);
      after := [Copied];
    } else {
      GoodBeginStays(zones);
      var failed := LossComesNearer(c, zones);
      var o := if failed then ReadFailed else Copied;
      LagStep(c, a, b, o);
      RoomGoesOn(c, a, b, o);
      var x, y := Step(c, a, o).next, Step(c, b, o).next;
      var rest := LossShows(c, x, y);
      LaterBlock(c, a, b, o, rest);
      after := [o] + rest;
    }
  }

  lemma SomeZones(zones: seq<Zone>)
    requires LossVisible(zones)
    ensures |zones| > 0
  {
  }

  lemma RoomGoesOn(c: Config, a: Copy, b: Copy, o: Outcome)
    requires IsSmart(c) && Lagging(c, a, b) && a.num < a.den && RoomFor(c, a)
    ensures Step(c, a, o).Done? && RoomFor(c, Step(c, a, o).next)
  {
    HasZones(c, a);
    StageOneChoice(c, a);
    hide Choose;
    StepIs(c, a, o, Sched(a.sched.zones, Some(0), false, 1));
  }

  lemma ReopenLags(c: Config, s: Copy)
    requires IsSmart(c) && Traced(c, s) && s.sched.stage == 1 && s.dstEnd == s.dstLength
    ensures Lagging(c, s, Reopen(s)) && (LossVisible(s.sched.zones) <==> LossVisible(Reopen(s).sched.zones))
  {
    hide LossVisible;
    ReopenSpent(c, s);
    ReopenValid(c, s);
    LiveIsParsed(s.sched.zones, s.journal);
    AlikeVisible(s.sched.zones, Reopen(s).sched.zones);
  }

  lemma AlikeVisible(a: seq<Zone>, b: seq<Zone>)
    requires Alike(a, b)
    ensures LossVisible(a) <==> LossVisible(b)
  {
    forall i | 0 <= i < |a| ensures Length(a[i]) == Length(b[i]) && a[i].beginBad == b[i].beginBad {
      assert a[i].(endBad := false) == b[i].(endBad := false);
    }
    AlikeLong(a, b, 0);
    AlikeLong(a, b, 1);
    AlikeLong(b, a, 0);
    AlikeLong(b, a, 1);
  }

  lemma AlikeLong(a: seq<Zone>, b: seq<Zone>, from: nat)
    requires |a| == |b| && forall i | 0 <= i < |a| :: Length(a[i]) == Length(b[i])
    ensures SomeLong(a, from) ==> SomeLong(b, from)
  {
    if SomeLong(a, from) {
      var i :| from <= i < |a| && Length(a[i]) > INDIVISIBLE_DEFECT_ZONE_SIZE_SECTORS;
      LongIn(b, from, i);
    }
  }

  /** Stopping smart or smart_noreverse in stage 1, with room at a destination that keeps its size:
      the resumed copy does what the running one does, for every pattern of later read errors, if
      and only if none can bring it to a jump. */
  lemma StageLossExactly(c: Config, s: Copy)
    requires IsSmart(c) && Traced(c, s) && s.sched.stage == 1 && RoomFor(c, s) && s.dstEnd == s.dstLength
    ensures Valid(c, Reopen(s))
    ensures (forall after | FullWrites(after) :: SameRun(c, s, Reopen(s), after)) <==> !LossVisible(s.sched.zones)
  {
    hide Run, SameRun, LossVisible, Traced;
    ReopenLags(c, s);
    if LossVisible(s.sched.zones) {
      var after := LossShows(c, s, Reopen(s));
    } else {
      forall after | FullWrites(after) ensures SameRun(c, s, Reopen(s), after) { HiddenRun(c, s, Reopen(s), after); }
    }
  }

  // ----- every strategy -----

  /** The destination is a device or file at least as large as the disk. */
  predicate Fits(c: Config, s: Copy) {
    s.dstEnd == s.dstLength >= |c.source|
  }

  /** The journal tells the resumed copy all that the stopped one knew and will use. */
  predicate NothingForgotten(c: Config, s: Copy) {
    if s.sched.stage == 1 then !LossVisible(s.sched.zones) else !(Reversing(c) && Blind(c, s))
  }

  lemma ForgottenExactly(c: Config, s: Copy)
    requires Traced(c, s) && Fits(c, s)
    ensures Valid(c, s) && Valid(c, Reopen(s))
    ensures (forall after | FullWrites(after) :: SameRun(c, s, Reopen(s), after)) <==> NothingForgotten(c, s)
  {
    hide Run, SameRun, LossVisible, Blind;
    if s.sched.stage == 1 {
      StageLossExactly(c, s);
    } else if Forward(c) {
      ReopenResumable(c, s);
      forall after | FullWrites(after) ensures SameRun(c, s, Reopen(s), after) { ReopenedRun(c, s, after); }
    } else {
      ReverseResumeExactly(c, s);
    }
  }

  /** A copy of any strategy, begun from a fresh start or a journal onto a destination with room
      for the disk and stopped between any two blocks. For every pattern of read errors after the
      stop the two sessions together amount to the uninterrupted run, if and only if
      - in smart's stage 1, no errors can make the resumed copy jump again;
      - before it, smart and skipfail do not stand behind a split whose first block just failed. */
  lemma ResumeExactly(c: Config, start: Copy, before: seq<Outcome>)
    requires Traced(c, start) && Fits(c, start) && FullWrites(before)
    requires Valid(c, start) && Run(c, start, before).ending == Interrupted
    ensures (forall after | FullWrites(after) :: Seamless(c, start, before, after)) <==>
            NothingForgotten(c, Run(c, start, before).final)
  {
    hide Run, SameRun, Seamless, NothingForgotten, Traced;
    var s := Run(c, start, before).final;
    RunTraced(c, start, before);
    RunBounded(c, start, before);
    InterruptedEarly(c, start, before);
    HasZones(c, s);
    assert 0 < s.sched.zones[0].end <= |c.source|;
    ForgottenExactly(c, s);
    forall after | FullWrites(after) ensures Seamless(c, start, before, after) <==> SameRun(c, s, Reopen(s), after) {
      SeamlessIsSameRun(c, start, before, after);
    }
  }

  /** The block after the stop alone. */
  lemma ResumedNextBlock(c: Config, start: Copy, before: seq<Outcome>)
    requires Traced(c, start) && FullWrites(before)
    requires Valid(c, start) && Run(c, start, before).ending == Interrupted
    ensures var s := Run(c, start, before).final;
            && |s.sched.zones| > 0 && CursorOk(s.sched) && |Reopen(s).sched.zones| > 0
            && (NextTask(c, Reopen(s).sched) == NextTask(c, s.sched) <==>
                if s.sched.stage == 1 then !JumpPossible(s.sched.zones)
                else Reversing(c) && Blind(c, s) ==>
                       c.strategy == Skipfail && c.skipBlocks == 1
                       && Length(s.sched.zones[FirstLive(c, s.sched.zones, 0)]) > SECTORS_AT_ONCE)
  {
    hide Run, Traced;
    RunTraced(c, start, before);
    InterruptedEarly(c, start, before);
    NextBlockExactly(c, Run(c, start, before).final);
  }

  lemma NextBlockExactly(c: Config, s: Copy)
    requires Traced(c, s) && Valid(c, s) && s.num < s.den
    ensures |s.sched.zones| > 0 && CursorOk(s.sched) && |Reopen(s).sched.zones| > 0
    ensures NextTask(c, Reopen(s).sched) == NextTask(c, s.sched) <==>
            if s.sched.stage == 1 then !JumpPossible(s.sched.zones)
            else Reversing(c) && Blind(c, s) ==>
                   c.strategy == Skipfail && c.skipBlocks == 1
                   && Length(s.sched.zones[FirstLive(c, s.sched.zones, 0)]) > SECTORS_AT_ONCE
  {
    hide JumpPossible, Choose;
    HasZones(c, s);
    if s.sched.stage == 1 {
      StageOneResume(c, s);
    } else if Forward(c) {
      ForwardNext(c, s);
    } else if Blind(c, s) {
      BlindNext(c, s);
    } else {
      UnblindChoice(c, s);
    }
  }

  lemma ForwardNext(c: Config, s: Copy)
    requires Forward(c) && Resumable(c, s) && s.sched.stage == 0 && |s.sched.zones| > 0
    ensures |Reopen(s).sched.zones| > 0 && NextTask(c, Reopen(s).sched) == NextTask(c, s.sched)
  {
    ReopenedMimics(c, s);
    MimicsChoose(c, s.sched, Reopen(s).sched);
    if Choose(c, s.sched).Some? {
      MimicsUse(c, Choose(c, s.sched).value, Choose(c, Reopen(s).sched).value, 0, false);
    }
  }

  // ----- a copy that has given up -----

  lemma GivesUpAtOnce(c: Config, s: Copy, os: seq<Outcome>)
    requires Valid(c, s) && s.num < s.den && |s.sched.zones| > 0 && Choose(c, s.sched) == None && os != []
    ensures Run(c, s, os) == RunResult(s, [], GaveUp)
  {
  }

  /** What a skipfail copy is stuck at it is stuck at again when it is resumed. */
  lemma StaysStuck(c: Config, s: Copy)
    requires IsSkipfail(c) && Traced(c, s) && AllStuck(c, s.sched.zones)
    ensures AllStuck(c, Reopen(s).sched.zones) && |Reopen(s).sched.zones| == |s.sched.zones|
  {
    if Forward(c) {
      ReopenAlike(c, s);
      forall i | 0 <= i < |s.sched.zones| ensures Stuck(c, Reopen(s).sched.zones, i) {
        AlikeStuck(c, s.sched.zones, Reopen(s).sched.zones, i);
      }
    } else {
      StuckUnblind(c, s);
      ParseIs(s.sched.zones, s.journal);
    }
  }

  /** A skipfail copy that has come to a list it gives up at gives up again, at once, every time it is
      resumed from its journal. */
  lemma GivesUpAgain(c: Config, start: Copy, before: seq<Outcome>, os: seq<Outcome>)
    requires IsSkipfail(c) && Traced(c, start) && FullWrites(before) && os != []
    requires Valid(c, start) && Run(c, start, before).ending == Interrupted
    requires AllStuck(c, Run(c, start, before).final.sched.zones)
    ensures var s := Run(c, start, before).final;
            && Valid(c, Reopen(s))
            && Run(c, Reopen(s), os).tasks == [] && Run(c, Reopen(s), os).ending == GaveUp
            && Run(c, Reopen(s), os).final.journal == s.journal
  {
    hide Run, Traced;
    var s := Run(c, start, before).final;
    RunTraced(c, start, before);
    InterruptedEarly(c, start, before);
    HasZones(c, s);
    StaysStuck(c, s);
    ReopenValid(c, s);
    HasTotal(c, Reopen(s));
    SkipfailIsChosen(c, Reopen(s).sched);
    SkipfailGivesUpExactly(c, Reopen(s).sched);
    GivesUpAtOnce(c, Reopen(s), os);
  }
}
