/** What whole runs do to the journal, sector by sector. */
module CopyHistory {
  import opened CopyTypes
  import opened ReadStrategies
  import opened ZoneCover
  import opened JournalParser
  import opened CopyRun
  import opened CopyBounds

  // ----- the live list and the journal -----

  /** However a run ends, the zones cover exactly the Unread bytes and hold
      `den - num` sectors; between blocks they also do not touch. */
  lemma {:induction false} RunConsistent(c: Config, s: Copy, os: seq<Outcome>)
    requires Valid(c, s)
    ensures var f := Run(c, s, os).final;
            && Sorted(f.sched.zones) && Exact(f.sched.zones, f.journal)
            && Total(f.sched.zones) == f.den - f.num && f.den == s.den
            && |f.journal| == |s.journal|
    decreases |os|
  {
    hide Choose, UseResults;
    if s.num < s.den && os != [] {
      HasZones(c, s);
      var r := Step(c, s, os[0]);
      if r.Refused? && r.next != s {
        ChooseNear(c, s.sched, s.journal);
      } else if r.Done? && !r.abort {
        RunConsistent(c, r.next, os[1..]);
      }
    }
  }

  /** After any completed block the live list is, border by border, what parsing the
      journal gives, and the progress left is the number of Unread bytes. */
  lemma RunLiveIsParsed(c: Config, s: Copy, os: seq<Outcome>)
    requires Valid(c, s) && Run(c, s, os).ending != GaveUp
    ensures var f := Run(c, s, os).final;
            && SameExtents(f.sched.zones, Parse(f.journal).zones)
            && f.den - f.num == CountUnread(f.journal)
  {
    hide Run;
    LiveIsParsed(Run(c, s, os).final.sched.zones, Run(c, s, os).final.journal);
  }

  // ----- each sector at most once -----

  function Hits(tasks: seq<Task>, k: int): nat {
    if tasks == [] then 0 else Bit(InTask(tasks[0], k)) + Hits(tasks[1..], k)
  }

  /** A sector is tasked once if the run took it out of the Unread state and never
      otherwise; what was journalled before stays. */
  lemma {:induction false} EachSectorOnce(c: Config, s: Copy, os: seq<Outcome>, k: int)
    requires Valid(c, s) && 0 <= k < |s.journal|
    ensures var r := Run(c, s, os);
            && |r.final.journal| == |s.journal|
            && Hits(r.tasks, k) == Bit(s.journal[k] == Unread && r.final.journal[k] != Unread)
            && (s.journal[k] != Unread ==> r.final.journal[k] == s.journal[k])
    decreases |os|
  {
    hide Choose, UseResults;
    if s.num < s.den && os != [] {
      HasZones(c, s);
      var r := Step(c, s, os[0]);
      if r.Done? {
        ProcessOk(c, s, os[0]);
        var rest := Run(c, r.next, os[1..]);
        if r.abort {
          assert Hits([r.task][1..], k) == 0;
        } else {
          EachSectorOnce(c, r.next, os[1..], k);
          assert ([r.task] + rest.tasks)[1..] == rest.tasks;
        }
      }
    }
  }

  /** What the block of a task leaves in a sector of it. */
  ghost predicate LeftBy(c: Config, t: Task, o: Outcome, k: int, before: Content, status: SectorStatus, after: Content)
    requires 0 <= k < |c.source|
  {
    match o
    case ReadFailed => status == (if t.sectors == 1 then SectorReadError else BlockReadError) && after == before
    case Copied => status == ReadOk && after == c.source[k]
    case WrittenShort(w) =>
      status == ReadOk && after == if k < t.lba + w && k < t.lba + t.sectors - 1 then c.source[k] else before
  }

  lemma StepEffect(c: Config, s: Copy, o: Outcome, k: int)
    requires Valid(c, s) && s.num < s.den && Step(c, s, o).Done? && 0 <= k < |s.journal|
    ensures var r := Step(c, s, o);
            && |r.next.journal| == |r.next.dst| == |s.journal|
            && (if InTask(r.task, k)
                then s.journal[k] == Unread && LeftBy(c, r.task, o, k, s.dst[k], r.next.journal[k], r.next.dst[k])
                else r.next.journal[k] == s.journal[k] && r.next.dst[k] == s.dst[k])
  {
    hide Choose, UseResults;
    HasZones(c, s);
    ProcessOk(c, s, o);
  }

  /** Journal and destination after any run, sector by sector: a sector of the run's i-th task
      has what the i-th outcome leaves in it, every other sector is as before. */
  lemma {:induction false} RunEffect(c: Config, s: Copy, os: seq<Outcome>, k: int)
    requires Valid(c, s) && 0 <= k < |s.journal|
    ensures var r := Run(c, s, os);
            && |r.final.journal| == |r.final.dst| == |s.journal|
            && (forall i | 0 <= i < |r.tasks| && InTask(r.tasks[i], k) ::
                  LeftBy(c, r.tasks[i], os[i], k, s.dst[k], r.final.journal[k], r.final.dst[k]))
            && (s.journal[k] != Unread || Hits(r.tasks, k) == 0 ==>
                  r.final.journal[k] == s.journal[k] && r.final.dst[k] == s.dst[k])
            && (s.journal[k] != Unread ==> forall i | 0 <= i < |r.tasks| :: !InTask(r.tasks[i], k))
    decreases |os|
  {
    hide Step, LeftBy;
    if s.num < s.den && os != [] && Step(c, s, os[0]).Done? {
      var r := Step(c, s, os[0]);
      StepEffect(c, s, os[0], k);
      if r.abort {
        assert Hits([r.task], k) == Bit(InTask(r.task, k)) by { assert [r.task][1..] == []; }
      } else {
        var rest := Run(c, r.next, os[1..]);
        RunEffect(c, r.next, os[1..], k);
        assert ([r.task] + rest.tasks)[1..] == rest.tasks;
        StatusRead(c, r.task, os[0], k, s.dst[k], r.next.journal[k], r.next.dst[k]);
      }
    } else if s.num < s.den && os != [] {
      RefusedKeeps(c, s, os[0]);
    }
  }

  lemma StatusRead(c: Config, t: Task, o: Outcome, k: int, before: Content, status: SectorStatus, after: Content)
    requires 0 <= k < |c.source|
    ensures LeftBy(c, t, o, k, before, status, after) ==> status != Unread
  {
  }

  lemma RefusedKeeps(c: Config, s: Copy, o: Outcome)
    requires Valid(c, s) && s.num < s.den && Step(c, s, o).Refused?
    ensures Step(c, s, o).next.journal == s.journal && Step(c, s, o).next.dst == s.dst
  {
    hide Choose, UseResults;
    HasZones(c, s);
  }

  // ----- smart reads everything -----

  /** A run that ended because the progress is complete has left nothing unread. */
  lemma {:induction false} NothingUnread(journal: seq<SectorStatus>, k: int)
    requires CountUnread(journal) == 0 && 0 <= k < |journal|
    ensures journal[k] != Unread
  {
    if k > 0 { NothingUnread(journal[1..], k - 1); }
  }

  /** The destination was empty when it was opened, or is as large as the disk. */
  predicate RoomFor(c: Config, s: Copy) {
    s.dstEnd == 0 || s.dstEnd >= |c.source|
  }

  /** What a step does when the scheduler's choice is known. */
  lemma StepIs(c: Config, s: Copy, o: Outcome, chosen: Sched)
    requires Valid(c, s) && s.num < s.den && RoomFor(c, s)
    requires |s.sched.zones| > 0 && Choose(c, s.sched) == Some(chosen)
    ensures var t := Proceed(chosen);
            && 0 <= t.lba && 0 < t.sectors && t.lba + t.sectors <= |s.journal|
            && Step(c, s, o).Done? && Step(c, s, o).task == t
            && Step(c, s, o).abort == (c.strategy == Plain && BlockFailed(o))
            && Step(c, s, o).next.sched == UseResults(c, chosen, t.sectors, BlockFailed(o))
            && Step(c, s, o).next.journal == Mark(s.journal, t, StatusOf(o, t.sectors))
            && Step(c, s, o).next.num == s.num + t.sectors && Step(c, s, o).next.den == s.den
            && Step(c, s, o).next.dstEnd == s.dstEnd
            && Total(Step(c, s, o).next.sched.zones) == s.den - s.num - t.sectors
            && Valid(c, Step(c, s, o).next)
  {
    hide Choose, UseResults;
    ProcessOk(c, s, o);
  }

  lemma {:induction false} SmartNeverStops(c: Config, s: Copy, os: seq<Outcome>)
    requires Valid(c, s) && IsSmart(c) && RoomFor(c, s)
    ensures Run(c, s, os).ending == Finished || Run(c, s, os).ending == Interrupted
    ensures Run(c, s, os).ending == Finished ==> Run(c, s, os).final.num >= Run(c, s, os).final.den
    decreases |os|
  {
    hide SmartChoose, UseResults;
    if s.num < s.den && os != [] {
      HasZones(c, s);
      SmartChooseNear(c, s.sched, s.journal);
      ProcessOk(c, s, os[0]);
      SmartNeverStops(c, Step(c, s, os[0]).next, os[1..]);
    }
  }

  /** For every pattern of errors, a smart copy that is not interrupted and has room at the
      destination finishes and tasks every sector that was unread exactly once. */
  lemma SmartReadsAll(c: Config, s: Copy, os: seq<Outcome>, k: int)
    requires Valid(c, s) && IsSmart(c) && RoomFor(c, s)
    requires |os| > MaxBlocks(c, s.sched.zones) && 0 <= k < |s.journal|
    ensures Run(c, s, os).ending == Finished && Run(c, s, os).final.sched.zones == []
    ensures Hits(Run(c, s, os).tasks, k) == Bit(s.journal[k] == Unread)
  {
    hide Run;
    var f := Run(c, s, os).final;
    RunTerminates(c, s, os);
    SmartNeverStops(c, s, os);
    RunLiveIsParsed(c, s, os);
    TotalNonNegative(f.sched.zones);
    EachSectorOnce(c, s, os, k);
    NothingUnread(f.journal, k);
  }

  // ----- runs in pieces -----

  function Prepend(t: Task, r: RunResult): RunResult {
    r.(tasks := [t] + r.tasks)
  }

  lemma RunCons(c: Config, s: Copy, o: Outcome, os: seq<Outcome>)
    requires Valid(c, s) && s.num < s.den && Step(c, s, o).Done? && !Step(c, s, o).abort
    ensures Run(c, s, [o] + os) == Prepend(Step(c, s, o).task, Run(c, Step(c, s, o).next, os))
  {
    hide Step;
    assert ([o] + os)[0] == o && ([o] + os)[1..] == os;
  }

  lemma StopsAt(c: Config, s: Copy)
    requires Valid(c, s)
    ensures Run(c, s, []) == RunResult(s, [], if s.num >= s.den then Finished else Interrupted)
  {
  }

  function Joined(tasks: seq<Task>, r: RunResult): RunResult {
    r.(tasks := tasks + r.tasks)
  }

  lemma PrependJoined(t: Task, tasks: seq<Task>, r: RunResult)
    ensures Prepend(t, Joined(tasks, r)) == Joined([t] + tasks, r)
  {
    assert [t] + (tasks + r.tasks) == [t] + tasks + r.tasks;
  }

  lemma InterruptedHead(c: Config, s: Copy, os: seq<Outcome>)
    requires Valid(c, s) && Run(c, s, os).ending == Interrupted && os != []
    ensures s.num < s.den && Step(c, s, os[0]).Done? && !Step(c, s, os[0]).abort
    ensures Run(c, s, os) == Prepend(Step(c, s, os[0]).task, Run(c, Step(c, s, os[0]).next, os[1..]))
  {
    hide Step;
  }

  lemma {:induction false} InterruptedEarly(c: Config, s: Copy, os: seq<Outcome>)
    requires Valid(c, s) && Run(c, s, os).ending == Interrupted
    ensures Run(c, s, os).final.num < Run(c, s, os).final.den
    decreases |os|
  {
    hide Step;
    if os != [] {
      InterruptedHead(c, s, os);
      InterruptedEarly(c, Step(c, s, os[0]).next, os[1..]);
    }
  }

  /** An interrupted run followed by a second one from where it stopped is one run. */
  lemma {:induction false} RunInPieces(c: Config, s: Copy, a: seq<Outcome>, b: seq<Outcome>)
    requires Valid(c, s) && Run(c, s, a).ending == Interrupted
    ensures Run(c, s, a + b) == Joined(Run(c, s, a).tasks, Run(c, Run(c, s, a).final, b))
    decreases |a|
  {
    hide Step;
    if a == [] {
      assert a + b == b;
      assert [] + Run(c, s, b).tasks == Run(c, s, b).tasks;
    } else {
      InterruptedHead(c, s, a);
      var r := Step(c, s, a[0]);
      assert a + b == [a[0]] + (a[1..] + b);
      RunCons(c, s, a[0], a[1..] + b);
      RunInPieces(c, r.next, a[1..], b);
      PrependJoined(r.task, Run(c, r.next, a[1..]).tasks, Run(c, Run(c, s, a).final, b));
    }
  }
}
