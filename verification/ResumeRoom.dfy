/** Resuming onto a destination that has grown: opening it again measures a limit that was not
    there before. */
module ResumeRoom {
  import opened CopyTypes
  import opened ReadStrategies
  import opened ZoneCover
  import opened JournalParser
  import opened CopyRun
  import opened CopyBounds
  import opened CopyHistory
  import opened CopyResume

  /** The copy with its destination measured again, and nothing else changed. */
  function Measured(s: Copy): Copy {
    s.(dstEnd := s.dstLength)
  }

  /** What measuring at opening leaves: no limit, or the size the destination still has. */
  ghost predicate Bounded(s: Copy) {
    0 <= s.dstLength && (s.dstEnd == 0 || s.dstEnd == s.dstLength)
  }

  ghost predicate TasksWithin(tasks: seq<Task>, end: int) {
    forall i | 0 <= i < |tasks| :: tasks[i].lba + tasks[i].sectors <= end
  }

  lemma PrependWithin(t: Task, tasks: seq<Task>, end: int)
    ensures TasksWithin([t] + tasks, end) <==> t.lba + t.sectors <= end && TasksWithin(tasks, end)
  {
    var all := [t] + tasks;
    assert all[0] == t;
    assert forall i | 0 <= i < |tasks| :: tasks[i] == all[i + 1];
  }

  lemma StepSizes(c: Config, s: Copy, o: Outcome)
    requires Valid(c, s) && s.num < s.den
    ensures var r := Step(c, s, o);
            && r.next.dstEnd == s.dstEnd
            && (r.Refused? ==> r.next.dstLength == s.dstLength && r.next.journal == s.journal && r.next.dst == s.dst)
            && (r.Done? && r.task.lba + r.task.sectors <= s.dstLength ==> r.next.dstLength == s.dstLength)
            && (r.Done? && s.dstEnd != 0 ==> r.task.lba + r.task.sectors <= s.dstEnd)
            && s.dstLength <= r.next.dstLength
  {
    hide Choose, UseResults;
    HasZones(c, s);
    if Step(c, s, o).Done? { ProcessOk(c, s, o); }
  }

  /** A destination measured at opening keeps its size; one without a limit may grow. */
  lemma {:induction false} RunBounded(c: Config, s: Copy, os: seq<Outcome>)
    requires Valid(c, s) && Bounded(s)
    ensures Bounded(Run(c, s, os).final) && Run(c, s, os).final.dstEnd == s.dstEnd
    decreases |os|
  {
    hide Step;
    if s.num < s.den && os != [] {
      StepSizes(c, s, os[0]);
      var r := Step(c, s, os[0]);
      if r.Done? && !r.abort { RunBounded(c, r.next, os[1..]); }
    }
  }

  // ----- the size of the destination -----

  /** Sector `k` was written: it is among the first sectors of a block that the destination took. */
  ghost predicate Written(tasks: seq<Task>, os: seq<Outcome>, k: int)
    requires |tasks| <= |os|
  {
    exists i :: 0 <= i < |tasks| && tasks[i].lba <= k < tasks[i].lba + Accepted(os[i], tasks[i].sectors)
  }

  lemma WrittenCons(t: Task, o: Outcome, tasks: seq<Task>, os: seq<Outcome>, k: int)
    requires os != [] && os[0] == o && |tasks| < |os|
    ensures Written([t] + tasks, os, k) <==> t.lba <= k < t.lba + Accepted(o, t.sectors) || Written(tasks, os[1..], k)
  {
    var all := [t] + tasks;
    if Written(tasks, os[1..], k) {
      var i :| 0 <= i < |tasks| && tasks[i].lba <= k < tasks[i].lba + Accepted(os[1..][i], tasks[i].sectors);
      assert all[i + 1] == tasks[i] && os[i + 1] == os[1..][i];
    }
    if t.lba <= k < t.lba + Accepted(o, t.sectors) { assert all[0] == t; }
    if Written(all, os, k) && !(t.lba <= k < t.lba + Accepted(o, t.sectors)) {
      var i :| 0 <= i < |all| && all[i].lba <= k < all[i].lba + Accepted(os[i], all[i].sectors);
      assert tasks[i - 1] == all[i] && os[1..][i - 1] == os[i];
    }
  }

  /** `to` is the smallest size that is not below `from` and beyond every sector written. */
  ghost predicate Grew(from: int, to: int, tasks: seq<Task>, os: seq<Outcome>)
    requires |tasks| <= |os|
  {
    from <= to && (forall k | Written(tasks, os, k) :: k < to) && (to == from || Written(tasks, os, to - 1))
  }

  lemma GrewNot(from: int, os: seq<Outcome>)
    ensures Grew(from, from, [], os)
  {
  }

  lemma GrewOnce(from: int, to: int, t: Task, o: Outcome, tasks: seq<Task>, os: seq<Outcome>)
    requires os != [] && os[0] == o && |tasks| < |os|
    requires var n := Accepted(o, t.sectors);
             Grew(if n > 0 && t.lba + n > from then t.lba + n else from, to, tasks, os[1..])
    ensures Grew(from, to, [t] + tasks, os)
  {
    hide Accepted, Written;
    forall k ensures Written([t] + tasks, os, k) <==>
                     t.lba <= k < t.lba + Accepted(o, t.sectors) || Written(tasks, os[1..], k)
    {
      WrittenCons(t, o, tasks, os, k);
    }
  }

  /** The size of the destination after a run is the smallest that is not below the size before it and
      beyond every sector written; the next session is limited to exactly that. */
  lemma {:induction false} DestinationSize(c: Config, s: Copy, os: seq<Outcome>)
    requires Valid(c, s)
    ensures Grew(s.dstLength, Run(c, s, os).final.dstLength, Run(c, s, os).tasks, os)
    ensures var f := Run(c, s, os).final; Reopen(f).dstEnd == Reopen(f).dstLength == f.dstLength
    decreases |os|
  {
    hide Step, Accepted, Grew, Parse;
    GrewNot(s.dstLength, os);
    if s.num < s.den && os != [] {
      var r := Step(c, s, os[0]);
      if r.Refused? {
        StepSizes(c, s, os[0]);
      } else {
        StepGrows(c, s, os[0]);
        if r.abort {
          GrewNot(r.next.dstLength, os[1..]);
          GrewOnce(s.dstLength, r.next.dstLength, r.task, os[0], [], os);
          assert [r.task] + [] == [r.task];
        } else {
          var rest := Run(c, r.next, os[1..]);
          DestinationSize(c, r.next, os[1..]);
          GrewOnce(s.dstLength, rest.final.dstLength, r.task, os[0], rest.tasks, os);
        }
      }
    }
  }

  lemma StepGrows(c: Config, s: Copy, o: Outcome)
    requires Valid(c, s) && s.num < s.den && Step(c, s, o).Done?
    ensures var r := Step(c, s, o); var n := Accepted(o, r.task.sectors);
            && 0 <= r.task.lba && 0 <= n <= r.task.sectors
            && r.next.dstLength == (if n > 0 && r.task.lba + n > s.dstLength then r.task.lba + n else s.dstLength)
  {
    hide Choose, UseResults;
    HasZones(c, s);
    ProcessOk(c, s, o);
  }

  // ----- the limit alone -----

  lemma {:induction false} LimitHolds(c: Config, s: Copy, os: seq<Outcome>)
    requires Valid(c, s) && s.dstEnd != 0
    ensures TasksWithin(Run(c, s, os).tasks, s.dstEnd)
    decreases |os|
  {
    hide Step;
    if s.num < s.den && os != [] {
      StepSizes(c, s, os[0]);
      var r := Step(c, s, os[0]);
      if r.Done? && !r.abort {
        LimitHolds(c, r.next, os[1..]);
        PrependWithin(r.task, Run(c, r.next, os[1..]).tasks, s.dstEnd);
      }
    }
  }

  /** A limit no block crosses changes nothing. */
  lemma LimitStep(c: Config, s: Copy, o: Outcome)
    requires Valid(c, s) && s.num < s.den && s.dstEnd == 0
    ensures var x, y := Step(c, s, o), Step(c, Measured(s), o);
            if x.Refused? then y == Refused(Measured(x.next))
            else if s.dstLength != 0 && x.task.lba + x.task.sectors > s.dstLength then y.Refused?
            else y.Done? && y.task == x.task && y.abort == x.abort && y.next == x.next.(dstEnd := s.dstLength)
  {
    hide Choose, UseResults;
    HasZones(c, s);
    if Step(c, s, o).Done? {
      ProcessOk(c, s, o);
      ProcessOk(c, Measured(s), o);
    }
  }

  lemma {:induction false} WithinSame(c: Config, s: Copy, os: seq<Outcome>)
    requires Valid(c, s) && s.dstEnd == 0 < s.dstLength && TasksWithin(Run(c, s, os).tasks, s.dstLength)
    ensures SameRun(c, s, Measured(s), os)
    decreases |os|
  {
    hide Step;
    if s.num < s.den && os != [] {
      LimitStep(c, s, os[0]);
      var r := Step(c, s, os[0]);
      if r.Done? {
        StepSizes(c, s, os[0]);
        assert Run(c, s, os).tasks[0] == r.task;
        if !r.abort {
          PrependWithin(r.task, Run(c, r.next, os[1..]).tasks, s.dstLength);
          WithinSame(c, r.next, os[1..]);
        }
      }
    }
  }

  /** Measuring the destination again in the middle of a run, under any strategy, goes unnoticed
      if and only if its size has not changed since it was opened, or no later block ends beyond
      the size it has now. */
  lemma MeasuredRunExactly(c: Config, s: Copy, os: seq<Outcome>)
    requires Valid(c, s) && Bounded(s)
    ensures SameRun(c, s, Measured(s), os) <==>
            s.dstEnd == s.dstLength || TasksWithin(Run(c, s, os).tasks, s.dstLength)
  {
    hide Run;
    if s.dstEnd == s.dstLength {
      assert Measured(s) == s;
    } else {
      LimitHolds(c, Measured(s), os);
      if TasksWithin(Run(c, s, os).tasks, s.dstLength) { WithinSame(c, s, os); }
    }
  }

  // ----- two sessions of a forward copy -----

  /** Two sessions, the second resumed from the journal of the first, amount to one run. */
  ghost predicate Seamless(c: Config, start: Copy, before: seq<Outcome>, after: seq<Outcome>)
    requires Valid(c, start) && Run(c, start, before).ending == Interrupted
  {
    var stop := Run(c, start, before);
    ReopenValid(c, stop.final);
    var second, whole := Run(c, Reopen(stop.final), after), Run(c, start, before + after);
    && whole.tasks == stop.tasks + second.tasks && whole.ending == second.ending
    && whole.final.journal == second.final.journal && whole.final.dst == second.final.dst
    && whole.final.dstLength == second.final.dstLength
  }

  lemma SeamlessIsSameRun(c: Config, start: Copy, before: seq<Outcome>, after: seq<Outcome>)
    requires Valid(c, start) && Run(c, start, before).ending == Interrupted
    ensures var s := Run(c, start, before).final;
            Valid(c, Reopen(s)) && (Seamless(c, start, before, after) <==> SameRun(c, s, Reopen(s), after))
  {
    hide Run;
    var stop := Run(c, start, before);
    ReopenValid(c, stop.final);
    RunInPieces(c, start, before, after);
    var x, y := Run(c, stop.final, after).tasks, Run(c, Reopen(stop.final), after).tasks;
    if stop.tasks + x == stop.tasks + y {
      assert (stop.tasks + x)[|stop.tasks|..] == x && (stop.tasks + y)[|stop.tasks|..] == y;
    }
  }

  lemma ReopenMeasured(c: Config, s: Copy, after: seq<Outcome>)
    requires Forward(c) && Resumable(c, s) && s.sched.stage == 0 && FullWrites(after)
    ensures Valid(c, Reopen(s)) && SameRun(c, Measured(s), Reopen(s), after)
  {
    hide Run;
    assert Reopen(Measured(s)) == Reopen(s);
    ReopenedRun(c, Measured(s), after);
  }

  lemma ReopenedRunExactly(c: Config, s: Copy, after: seq<Outcome>)
    requires Forward(c) && Resumable(c, s) && Bounded(s) && s.sched.stage == 0 && FullWrites(after)
    ensures Valid(c, Reopen(s))
    ensures SameRun(c, s, Reopen(s), after) <==>
            s.dstEnd == s.dstLength || TasksWithin(Run(c, s, after).tasks, s.dstLength)
  {
    hide Run;
    ReopenMeasured(c, s, after);
    MeasuredRunExactly(c, s, after);
  }

  /** Stopping a forward copy between any two blocks and resuming it from its journal: for every
      pattern of read errors before and after the stop, the two sessions together read the blocks
      the uninterrupted run reads, in its order, and leave the journal and the destination it
      leaves, if and only if the destination has kept the size measured at the first opening, or
      the blocks after the stop end within the size it has then. */
  lemma ResumeRefinesRun(c: Config, start: Copy, before: seq<Outcome>, after: seq<Outcome>)
    requires Forward(c) && Resumable(c, start) && Bounded(start) && FullWrites(before) && FullWrites(after)
    requires Run(c, start, before).ending == Interrupted && Run(c, start, before).final.sched.stage == 0
    ensures var s := Run(c, start, before).final;
            Seamless(c, start, before, after) <==>
            s.dstEnd == s.dstLength || TasksWithin(Run(c, s, after).tasks, s.dstLength)
    ensures start.dstEnd != 0 ==> Seamless(c, start, before, after)
  {
    hide Run, Seamless;
    RunResumable(c, start, before);
    RunBounded(c, start, before);
    SeamlessIsSameRun(c, start, before, after);
    ReopenedRunExactly(c, Run(c, start, before).final, after);
  }

  // ----- any number of sessions -----

  /** Sessions one after another, each resumed from the journal of the one before, until one of them
      ends other than by interrupt. */
  ghost function Sessions(c: Config, s: Copy, parts: seq<seq<Outcome>>): RunResult
    requires Valid(c, s)
    decreases |parts|
  {
    var first := Run(c, s, if parts == [] then [] else parts[0]);
    if |parts| <= 1 || first.ending != Interrupted then first
    else
      ReopenValid(c, first.final);
      Joined(first.tasks, Sessions(c, Reopen(first.final), parts[1..]))
  }

  /** No session but the last is stopped in stage 1; only smart_noreverse can be. */
  ghost predicate StoppedInStageZero(c: Config, s: Copy, parts: seq<seq<Outcome>>)
    requires Valid(c, s)
    decreases |parts|
  {
    |parts| <= 1 ||
    (var first := Run(c, s, parts[0]);
     first.ending == Interrupted ==>
       && first.final.sched.stage == 0
       && (ReopenValid(c, first.final); StoppedInStageZero(c, Reopen(first.final), parts[1..])))
  }

  function Flatten(parts: seq<seq<Outcome>>): seq<Outcome> {
    if parts == [] then [] else parts[0] + Flatten(parts[1..])
  }

  lemma {:induction false} EndedRun(c: Config, s: Copy, a: seq<Outcome>, b: seq<Outcome>)
    requires Valid(c, s) && Run(c, s, a).ending != Interrupted
    ensures Run(c, s, a + b) == Run(c, s, a)
    decreases |a|
  {
    hide Step;
    if s.num < s.den && a != [] {
      assert (a + b)[0] == a[0] && (a + b)[1..] == a[1..] + b;
      var r := Step(c, s, a[0]);
      if r.Done? && !r.abort { EndedRun(c, r.next, a[1..], b); }
    }
  }

  /** On a destination that is not empty at first, any number of sessions of a forward copy read the
      blocks one uninterrupted run reads, in its order, and leave its journal and destination. */
  lemma {:induction false} SessionsAreOneRun(c: Config, s: Copy, parts: seq<seq<Outcome>>)
    requires Forward(c) && Resumable(c, s) && Bounded(s) && s.dstEnd != 0
    requires FullWrites(Flatten(parts)) && StoppedInStageZero(c, s, parts)
    ensures var many, one := Sessions(c, s, parts), Run(c, s, Flatten(parts));
            && many.tasks == one.tasks && many.ending == one.ending
            && many.final.journal == one.final.journal && many.final.dst == one.final.dst
    decreases |parts|
  {
    hide Run, Coherent, BeginFlagsMatch;
    if parts != [] {
      var first, rest := Run(c, s, parts[0]), Flatten(parts[1..]);
      assert forall i | 0 <= i < |parts[0]| :: parts[0][i] == Flatten(parts)[i];
      assert forall i | 0 <= i < |rest| :: rest[i] == Flatten(parts)[|parts[0]| + i];
      if first.ending != Interrupted {
        EndedRun(c, s, parts[0], rest);
      } else if |parts| == 1 {
        assert parts[0] + rest == parts[0];
      } else {
        RunInPieces(c, s, parts[0], rest);
        RunResumable(c, s, parts[0]);
        RunBounded(c, s, parts[0]);
        ReopenResumable(c, first.final);
        ReopenedRun(c, first.final, rest);
        SessionsAreOneRun(c, Reopen(first.final), parts[1..]);
      }
    }
  }

  // ----- what a stopped copy may still read -----

  /** Every zone the strategy can still read ends by `end`; skipfail never reads one it is stuck at. */
  ghost predicate EndsWithin(c: Config, zones: seq<Zone>, end: int) {
    forall i | 0 <= i < |zones| && zones[i].end > end :: IsSkipfail(c) && Stuck(c, zones, i)
  }

  lemma ChooseEndsWithin(c: Config, s: Sched, end: int)
    requires Forward(c) && ConfigOk(c) && Coherent(c, s) && Gapped(s.zones) && |s.zones| > 0
    requires s.stage == 0 || (s.stage == 1 && IsSmart(c))
    requires EndsWithin(c, s.zones, end) && Choose(c, s).Some?
    ensures var s1 := Choose(c, s).value; EndsWithin(c, s1.zones, end) && s1.zones[s1.current.value].end <= end
  {
    var s1 := Choose(c, s).value;
    ChooseAims(c, s);
    if s1.zones != s.zones {
      var i, at := SplitPlace(c, s);
      SplitEndsWithin(c, s.zones, i, at, end);
    }
  }

  lemma SplitEndsWithin(c: Config, zones: seq<Zone>, i: nat, at: int, end: int)
    requires EndsWithin(c, zones, end) && i < |zones| && at < zones[i].end
    requires IsSkipfail(c) ==> !Stuck(c, zones, i)
    ensures var split := SplitZone(zones, i, at);
            EndsWithin(c, split, end) && |split| == |zones| + 1 && split[i].end <= end && split[i + 1].end <= end
  {
    var split := SplitZone(zones, i, at);
    SplitAt(zones, i, at);
    assert zones[i].end <= end;
    hide SplitZone;
    forall j | 0 <= j < |split| && split[j].end > end ensures IsSkipfail(c) && Stuck(c, split, j) {
      assert Stuck(c, zones, if j <= i then j else j - 1);
    }
  }

  lemma UseEndsWithin(c: Config, s: Sched, failed: bool, end: int)
    requires Near(s) && EndsWithin(c, s.zones, end) && s.zones[s.current.value].end <= end
    ensures EndsWithin(c, Consume(s, Proceed(s).sectors, failed).zones, end)
  {
    var zones := Consume(s, Proceed(s).sectors, failed).zones;
    forall j | 0 <= j < |zones| && zones[j].end > end ensures IsSkipfail(c) && Stuck(c, zones, j) {
      var i := ConsumedFrom(s, failed, j);
      assert Stuck(c, s.zones, i);
    }
  }

  lemma StepEndsWithin(c: Config, s: Copy, o: Outcome, end: int)
    requires Forward(c) && Valid(c, s) && Coherent(c, s.sched) && s.num < s.den && EndsWithin(c, s.sched.zones, end)
    requires Step(c, s, o).Done?
    ensures var r := Step(c, s, o);
            && r.task.lba + r.task.sectors <= end && Coherent(c, r.next.sched) && EndsWithin(c, r.next.sched.zones, end)
  {
    hide Choose, UseResults, EndsWithin, Consume, Mark, WriteDst;
    HasZones(c, s);
    ProcessOk(c, s, o);
    ChooseAims(c, s.sched);
    ChooseEndsWithin(c, s.sched, end);
    var s1 := Choose(c, s.sched).value;
    ModeKept(c, s.sched, Proceed(s1).sectors, BlockFailed(o));
    TaskInZone(s1);
    UseEndsWithin(c, s1, BlockFailed(o), end);
    UseCoheres(c, s1, BlockFailed(o));
  }

  lemma {:induction false} RunEndsWithin(c: Config, s: Copy, os: seq<Outcome>, end: int)
    requires Forward(c) && Valid(c, s) && Coherent(c, s.sched) && EndsWithin(c, s.sched.zones, end)
    ensures TasksWithin(Run(c, s, os).tasks, end)
    decreases |os|
  {
    hide Step, EndsWithin;
    if s.num < s.den && os != [] && Step(c, s, os[0]).Done? {
      var r := Step(c, s, os[0]);
      StepEndsWithin(c, s, os[0], end);
      if !r.abort {
        RunEndsWithin(c, r.next, os[1..], end);
        PrependWithin(r.task, Run(c, r.next, os[1..]).tasks, end);
      }
    }
  }

  // ----- a run in which every read succeeds -----

  ghost predicate AllCopied(os: seq<Outcome>) {
    forall i | 0 <= i < |os| :: os[i] == Copied
  }

  /** Without a limit and without errors, only skipfail stops, and only before a stuck list. */
  lemma {:induction false} CopiedEnds(c: Config, s: Copy, os: seq<Outcome>)
    requires Forward(c) && Resumable(c, s) && s.dstEnd == 0 && AllCopied(os)
    ensures var r := Run(c, s, os);
            && Resumable(c, r.final) && r.ending != Aborted && (r.ending == Finished ==> r.final.num >= r.final.den)
            && (r.ending == GaveUp ==> IsSkipfail(c) && AllStuck(c, r.final.sched.zones))
    decreases |os|
  {
    hide Choose, UseResults, SmartChoose, SkipfailChoose, Coherent;
    if s.num < s.den && os != [] {
      HasZones(c, s);
      StepResumable(c, s, os[0]);
      if IsSmart(c) { SmartIsChosen(c, s.sched); SmartChooseNear(c, s.sched, s.journal); }
      if IsSkipfail(c) { SkipfailIsChosen(c, s.sched); }
      PlainKeepsZones(c, s.sched);
      var r := Step(c, s, os[0]);
      if r.Done? { CopiedEnds(c, r.next, os[1..]); }
    }
  }

  /** What such a run has read is journalled as read. */
  lemma CopiedByte(c: Config, s: Copy, os: seq<Outcome>, k: int)
    requires Valid(c, s) && AllCopied(os) && 0 <= k < |s.journal|
    ensures var j := Run(c, s, os).final.journal;
            |j| == |s.journal| && (j[k] == s.journal[k] || j[k] == ReadOk)
  {
    hide Run;
    RunEffect(c, s, os, k);
    EachSectorOnce(c, s, os, k);
    var r := Run(c, s, os);
    if Hits(r.tasks, k) > 0 { var i := HitIs(r.tasks, k); assert i < |os|; }
  }

  lemma HitIs(tasks: seq<Task>, k: int) returns (i: nat)
    requires Hits(tasks, k) > 0
    ensures i < |tasks| && InTask(tasks[i], k)
  {
    if InTask(tasks[0], k) {
      i := 0;
    } else {
      i := HitIs(tasks[1..], k);
      i := i + 1;
    }
  }

  /** A zone a run without errors has left something of, up to its end, is one it is stuck at. */
  lemma LeftoverStuck(c: Config, s: Copy, f: Copy, i: nat)
    requires c.strategy == SkipfailNoReverse && Resumable(c, s) && Resumable(c, f) && AllStuck(c, f.sched.zones)
    requires i < |s.sched.zones| && f.journal[s.sched.zones[i].end - 1] == Unread
    requires forall k | 0 <= k < |s.journal| ::
               f.journal[k] == s.journal[k] || (s.journal[k] == Unread && f.journal[k] == ReadOk)
    ensures Stuck(c, s.sched.zones, i)
  {
    var z, a := s.sched.zones[i], f.sched.zones;
    var m := UnreadZone(a, f.journal, z.end - 1);
    SameEnd(s.sched.zones, s.journal, a, f.journal, i, m);
    assert Stuck(c, a, m);
    if a[m].begin > z.begin { BeforeIsRead(a, f.journal, m); }
    hide Tracks, Coherent;
  }

  /** A zone left of another one, up to its end, lies inside it and ends where it does. */
  lemma SameEnd(a: seq<Zone>, before: seq<SectorStatus>, b: seq<Zone>, after: seq<SectorStatus>, i: nat, m: nat)
    requires Tracks(a, before) && Tracks(b, after) && |before| == |after|
    requires i < |a| && m < |b| && InZone(b[m], a[i].end - 1)
    requires forall k | 0 <= k < |before| && after[k] == Unread :: before[k] == Unread
    ensures a[i].begin <= b[m].begin && b[m].end == a[i].end
    ensures forall k | a[i].begin <= k < a[i].end :: before[k] == Unread
  {
    forall k | a[i].begin <= k < a[i].end ensures before[k] == Unread { assert InZone(a[i], k); }
    if b[m].begin < a[i].begin {
      BeforeIsRead(a, before, i);
      assert InZone(b[m], a[i].begin - 1);
    }
    if b[m].end > a[i].end {
      EndIsRead(a, before, i);
      assert InZone(b[m], a[i].end);
    }
  }

  lemma BoundIsNat(c: Config, s: Copy)
    requires Valid(c, s)
    ensures MaxBlocks(c, s.sched.zones) >= 0
  {
    hide Splits;
    SplitsBounded(c, s, []);
    TotalNonNegative(s.sched.zones);
  }

  /** Some run without errors reads to the end of every zone the strategy can still read. */
  lemma ReadsToTheEnd(c: Config, s: Copy, i: nat, end: int) returns (os: seq<Outcome>)
    requires Forward(c) && Resumable(c, s) && s.dstEnd == 0
    requires i < |s.sched.zones| && s.sched.zones[i].end > end && !(IsSkipfail(c) && Stuck(c, s.sched.zones, i))
    ensures FullWrites(os) && !TasksWithin(Run(c, s, os).tasks, end)
  {
    hide Run, MaxBlocks, Stuck, Coherent;
    BoundIsNat(c, s);
    os := seq(MaxBlocks(c, s.sched.zones) + 1, _ => Copied);
    var r, k := Run(c, s, os), s.sched.zones[i].end - 1;
    RunTerminates(c, s, os);
    CopiedEnds(c, s, os);
    EachSectorOnce(c, s, os, k);
    assert InZone(s.sched.zones[i], k);
    assert s.journal[k] == Unread;
    if r.final.journal[k] == Unread {
      if r.ending == Finished {
        LiveIsParsed(r.final.sched.zones, r.final.journal);
        NothingUnread(r.final.journal, k);
      } else {
        forall q | 0 <= q < |s.journal|
          ensures r.final.journal[q] == s.journal[q] || (s.journal[q] == Unread && r.final.journal[q] == ReadOk)
        {
          CopiedByte(c, s, os, q);
          EachSectorOnce(c, s, os, q);
        }
        LeftoverStuck(c, s, r.final, i);
      }
    } else {
      var j := HitIs(r.tasks, k);
      assert r.tasks[j].lba + r.tasks[j].sectors > end;
    }
  }

  lemma PastEnd(c: Config, zones: seq<Zone>, end: int) returns (i: nat)
    requires !EndsWithin(c, zones, end)
    ensures i < |zones| && zones[i].end > end && !(IsSkipfail(c) && Stuck(c, zones, i))
  {
    i :| 0 <= i < |zones| && zones[i].end > end && !(IsSkipfail(c) && Stuck(c, zones, i));
  }

  /** Stopping a forward copy in stage 0 is invisible for every pattern of later read errors if
      and only if the destination has kept its size, or no zone that may still be read reaches
      beyond the size it has now. */
  lemma ResumeOnGrownExactly(c: Config, s: Copy)
    requires Forward(c) && Resumable(c, s) && Bounded(s) && s.sched.stage == 0
    ensures Valid(c, Reopen(s))
    ensures (forall after | FullWrites(after) :: SameRun(c, s, Reopen(s), after)) <==>
            s.dstEnd == s.dstLength || EndsWithin(c, s.sched.zones, s.dstLength)
  {
    hide Run, EndsWithin, SameRun, Coherent, BeginFlagsMatch;
    ReopenResumable(c, s);
    if s.dstEnd == s.dstLength || EndsWithin(c, s.sched.zones, s.dstLength) {
      forall after | FullWrites(after) ensures SameRun(c, s, Reopen(s), after) {
        ReopenedRunExactly(c, s, after);
        if s.dstEnd != s.dstLength { RunEndsWithin(c, s, after, s.dstLength); }
      }
    } else {
      var i := PastEnd(c, s.sched.zones, s.dstLength);
      var os := ReadsToTheEnd(c, s, i, s.dstLength);
      ReopenedRunExactly(c, s, os);
    }
  }

  /** The next block alone, for a destination that was empty when the first session opened it:
      the resumed copy does it too if and only if nothing has been written yet or the block ends
      within what has been written; otherwise it is refused. */
  lemma GrownNextBlock(c: Config, s: Copy, o: Outcome)
    requires Forward(c) && Resumable(c, s) && s.sched.stage == 0 && s.num < s.den && s.dstEnd == 0
    requires Step(c, s, o).Done?
    ensures Valid(c, Reopen(s)) && Reopen(s).num < Reopen(s).den
    ensures var r, t := Step(c, Reopen(s), o), Step(c, s, o).task;
            if s.dstLength == 0 || t.lba + t.sectors <= s.dstLength then r.Done? && r.task == t else r.Refused?
  {
    hide Step;
    var m := Measured(s);
    assert Reopen(m) == Reopen(s);
    ReopenedIsTwin(c, m);
    LimitStep(c, s, o);
    TwinsStep(c, m, Reopen(s), o);
  }

  lemma PlainOne(c: Config, s: Copy, z: Zone)
    requires c.strategy == Plain && Valid(c, s) && s.num < s.den && s.sched.zones == [z]
    ensures var r, t := Step(c, s, Copied), Task(z.begin, if Length(z) < 256 then Length(z) else 256);
            if NoRoom(s.dstEnd, t) then r.Refused?
            else
              && r.Done? && r.task == t && !r.abort && r.next.num == s.num + t.sectors && r.next.den == s.den
              && r.next.sched.zones == (if Length(z) <= 256 then [] else [Zone(z.begin + 256, z.end, false, z.endBad)])
              && r.next.dstLength == Extended(s.dstLength, t.lba, t.sectors) && r.next.dstEnd == s.dstEnd
  {
    hide Mark, WriteDst;
    ProcessOk(c, s, Copied);
  }

  function NewFile(dst: seq<Content>): Copy {
    Reopen(Copy(FreshSched(0), Blank(|dst|), dst, 0, 0, 0, 0))
  }

  /** A new file and a disk of two blocks: after one block and a stop nothing more is copied,
      though without the stop the second block is. */
  lemma GrownFileStops(c: Config, dst: seq<Content>)
    requires c.strategy == Plain && ConfigOk(c) && |dst| == |c.source| == 512
    ensures Valid(c, NewFile(dst)) && Run(c, NewFile(dst), [Copied]).ending == Interrupted
    ensures var s := Run(c, NewFile(dst), [Copied]).final;
            && Valid(c, Reopen(s)) && s.dstLength == 256
            && Run(c, Reopen(s), [Copied]).tasks == [] && Run(c, Reopen(s), [Copied]).ending == GaveUp
            && Run(c, s, [Copied]).tasks == [Task(256, 256)] && Run(c, s, [Copied]).ending == Finished
  {
    hide Run, Step, Valid, Tracks, Parse;
    var start := NewFile(dst);
    ReopenValid(c, Copy(FreshSched(0), Blank(512), dst, 0, 0, 0, 0));
    FreshIsBlankResume(Blank(512));
    PlainOne(c, start, Zone(0, 512, false, false));
    var s := Step(c, start, Copied).next;
    RunCopied(c, start);
    GrownSecond(c, s);
  }

  lemma GrownSecond(c: Config, s: Copy)
    requires c.strategy == Plain && Valid(c, s) && s.num + 256 == s.den && s.dstLength == 256 && s.dstEnd == 0
    requires s.sched.zones == [Zone(256, 512, false, false)]
    ensures Valid(c, Reopen(s))
    ensures Run(c, Reopen(s), [Copied]).tasks == [] && Run(c, Reopen(s), [Copied]).ending == GaveUp
    ensures Run(c, s, [Copied]).tasks == [Task(256, 256)] && Run(c, s, [Copied]).ending == Finished
  {
    hide Run, Step, Valid, Tracks, Parse;
    PlainOne(c, s, Zone(256, 512, false, false));
    RunCopied(c, s);
    ReopenedZones(c, s);
    PlainOne(c, Reopen(s), Reopen(s).sched.zones[0]);
    RunCopied(c, Reopen(s));
  }

  lemma ReopenedZones(c: Config, s: Copy)
    requires Valid(c, s)
    ensures Valid(c, Reopen(s)) && SameExtents(s.sched.zones, Reopen(s).sched.zones) && Reopen(s).den == s.den - s.num
  {
    ReopenValid(c, s);
    LiveIsParsed(s.sched.zones, s.journal);
  }

  lemma RunCopied(c: Config, s: Copy)
    requires Valid(c, s) && s.num < s.den
    ensures var r, x := Step(c, s, Copied), Run(c, s, [Copied]);
            if r.Refused? then x == RunResult(r.next, [], GaveUp)
            else if r.abort then x == RunResult(r.next, [r.task], Aborted)
            else x == RunResult(r.next, [r.task], if r.next.num >= r.next.den then Finished else Interrupted)
  {
    hide Step;
    var r := Step(c, s, Copied);
    if r.Done? && !r.abort {
      StopsAt(c, r.next);
      RunCons(c, s, Copied, []);
      assert [Copied] + [] == [Copied] && [r.task] + [] == [r.task];
    }
  }

  // ----- telling two copies apart -----

  lemma RunOne(c: Config, s: Copy, chosen: Sched)
    requires Valid(c, s) && s.num < s.den && RoomFor(c, s) && |s.sched.zones| > 0 && Choose(c, s.sched) == Some(chosen)
    ensures Run(c, s, [Copied]).tasks == [Proceed(chosen)]
  {
    hide Choose, Step;
    StepIs(c, s, Copied, chosen);
    assert [Copied][1..] == [];
  }

  lemma RunNone(c: Config, s: Copy)
    requires Valid(c, s) && s.num < s.den && |s.sched.zones| > 0 && Choose(c, s.sched) == None
    ensures Run(c, s, [Copied]).tasks == []
  {
  }

  /** Copies that choose different blocks are told apart by one block. */
  lemma OtherBlock(c: Config, a: Copy, b: Copy)
    requires Valid(c, a) && Valid(c, b) && a.num < a.den && b.num < b.den && RoomFor(c, a) && RoomFor(c, b)
    requires |a.sched.zones| > 0 && |b.sched.zones| > 0
    requires NextTask(c, a.sched) != NextTask(c, b.sched)
    ensures FullWrites([Copied]) && !SameRun(c, a, b, [Copied])
  {
    hide Choose, Run;
    match (Choose(c, a.sched), Choose(c, b.sched))
    case (Some(x), Some(y)) => RunOne(c, a, x); RunOne(c, b, y);
    case (Some(x), None) => RunOne(c, a, x); RunNone(c, b);
    case (None, Some(y)) => RunNone(c, a); RunOne(c, b, y);
    case (None, None) =>
  }

  /** Copies that do the same next block and can be told apart after it. */
  lemma LaterBlock(c: Config, a: Copy, b: Copy, o: Outcome, rest: seq<Outcome>)
    requires Valid(c, a) && Valid(c, b) && a.num < a.den && b.num < b.den && !o.WrittenShort? && FullWrites(rest)
    requires var x, y := Step(c, a, o), Step(c, b, o);
             x.Done? && y.Done? && x.task == y.task && !x.abort && !y.abort && !SameRun(c, x.next, y.next, rest)
    ensures FullWrites([o] + rest) && !SameRun(c, a, b, [o] + rest)
  {
    hide Run, Step;
    RunCons(c, a, o, rest);
    RunCons(c, b, o, rest);
    var x, y := Run(c, Step(c, a, o).next, rest).tasks, Run(c, Step(c, b, o).next, rest).tasks;
    if x != y {
      var t := Step(c, a, o).task;
      assert ([t] + x)[1..] == x && ([t] + y)[1..] == y;
    }
  }

  lemma HasTotal(c: Config, s: Copy)
    requires Valid(c, s) && |s.sched.zones| > 0
    ensures s.num < s.den
  {
    TotalNonNegative(s.sched.zones);
  }
}
