/** The copy as single sector writes, with crashes and restarts anywhere in between. */
module CrashSafety {
  import opened CopyTypes
  import opened ReadStrategies
  import opened ZoneCover
  import opened JournalParser
  import opened CopyRun
  import opened CopyBounds

  /** Where the procedure is within a block: nothing fetched; the block read and `done` of
      its sectors written out; the destination done and `done` journal bytes written. */
  datatype Phase =
    | Idle
    | Writing(task: Task, outcome: Outcome, done: nat)
    | Journalling(task: Task, outcome: Outcome, done: nat)

  /** `fetched` is history: the sectors some session has read successfully. */
  datatype Machine = Machine(sched: Sched, journal: seq<SectorStatus>, dst: seq<Content>, dstLength: int, dstEnd: int,
                             phase: Phase, fetched: set<int>)

  datatype Action =
    | Fetch(outcome: Outcome)
    | WriteSector
    | WriteJournalByte
    | Settle
    | Restart(config: Config)

  function TaskSectors(t: Task): set<int> {
    set k | t.lba <= k < t.lba + t.sectors && InTask(t, k)
  }

  /** What the machine relies on between actions; `initial` is the destination's first content. */
  ghost predicate Sane(c: Config, m: Machine) {
    && ConfigOk(c) && |m.journal| == |m.dst| == |c.source|
    && (m.phase.Idle? ==> Tracks(m.sched.zones, m.journal) && CursorOk(m.sched))
    && (!m.phase.Idle? ==>
          && m.sched.current.Some? && m.sched.current.value < |m.sched.zones|
          && m.phase.task == Proceed(m.sched) && Near(m.sched)
          && 0 <= m.phase.task.lba && 0 < m.phase.task.sectors
          && m.phase.task.lba + m.phase.task.sectors <= |m.journal|)
    && (m.phase.Writing? ==>
          Exact(m.sched.zones, m.journal) && m.phase.done <= Accepted(m.phase.outcome, m.phase.task.sectors))
    && (m.phase.Journalling? ==>
          && m.phase.done <= m.phase.task.sectors
          && exists before: seq<SectorStatus> ::
               && |before| == |m.journal| && Exact(m.sched.zones, before)
               && PartlyMarked(before, m.journal, m.phase.task,
                               StatusOf(m.phase.outcome, m.phase.task.sectors), m.phase.done))
  }

  /** `journal` is `before` with the first `done` bytes of the block written. */
  ghost predicate PartlyMarked(before: seq<SectorStatus>, journal: seq<SectorStatus>, t: Task,
                               status: SectorStatus, done: int)
    requires |before| == |journal|
  {
    forall k | 0 <= k < |journal| :: journal[k] == if t.lba <= k < t.lba + done then status else before[k]
  }

  /** The action can happen now; crashes always can. */
  predicate Enabled(c: Config, m: Machine, a: Action) {
    match a
    case Fetch(o) =>
      && m.phase.Idle? && |m.sched.zones| > 0 && CursorOk(m.sched) && Choose(c, m.sched).Some?
      && !NoRoom(m.dstEnd, Proceed(Choose(c, m.sched).value))
    case WriteSector => m.phase.Writing? && m.phase.done < Accepted(m.phase.outcome, m.phase.task.sectors)
                        && 0 <= m.phase.task.lba + m.phase.done < |m.dst| && |m.dst| == |c.source|
    case WriteJournalByte =>
      || (m.phase.Writing? && m.phase.done == Accepted(m.phase.outcome, m.phase.task.sectors)
          && 0 <= m.phase.task.lba < |m.journal|)
      || (m.phase.Journalling? && m.phase.done < m.phase.task.sectors
          && 0 <= m.phase.task.lba + m.phase.done < |m.journal|)
    case Settle => m.phase.Journalling? && m.phase.done == m.phase.task.sectors
                   && m.sched.current.Some? && m.sched.current.value < |m.sched.zones|
    case Restart(c') => c'.source == c.source && c'.skipBlocks >= 1
  }

  function Act(c: Config, m: Machine, a: Action): (r: (Config, Machine))
    requires Enabled(c, m, a)
  {
    match a
    case Fetch(o) =>
      var s := Choose(c, m.sched).value;
      var t := Proceed(s);
      (c, m.(sched := s, phase := Writing(t, o, 0),
             fetched := if o.ReadFailed? then m.fetched else m.fetched + TaskSectors(t)))
    case WriteSector =>
      var k := m.phase.task.lba + m.phase.done;
      (c, m.(dst := m.dst[k := c.source[k]], dstLength := Extended(m.dstLength, k, 1),
             phase := Writing(m.phase.task, m.phase.outcome, m.phase.done + 1)))
    case WriteJournalByte =>
      var done := if m.phase.Writing? then 0 else m.phase.done;
      var k := m.phase.task.lba + done;
      (c, m.(journal := m.journal[k := StatusOf(m.phase.outcome, m.phase.task.sectors)],
             phase := Journalling(m.phase.task, m.phase.outcome, done + 1)))
    case Settle =>
      (c, m.(sched := UseResults(c, m.sched, m.phase.task.sectors, BlockFailed(m.phase.outcome)), phase := Idle))
    case Restart(c') =>
      (c', m.(sched := ResumedSched(m.journal), dstEnd := m.dstLength, phase := Idle))
  }

  // ----- what no crash can break -----

  /** Sectors journalled as read are on the destination; sectors never read are untouched. */
  ghost predicate Safe(c: Config, m: Machine, initial: seq<Content>) {
    && |m.journal| == |m.dst| == |c.source| == |initial|
    && (forall k | 0 <= k < |m.dst| && m.journal[k] == ReadOk :: m.dst[k] == c.source[k])
    && (forall k | 0 <= k < |m.dst| && k !in m.fetched :: m.dst[k] == initial[k])
    && (forall k | 0 <= k < |m.dst| :: m.dst[k] == initial[k] || m.dst[k] == c.source[k])
  }

  /** The block in flight: what is written so far is there, and only read blocks are written. */
  ghost predicate InFlight(c: Config, m: Machine)
    requires |m.dst| == |c.source|
  {
    !m.phase.Idle? ==>
      && (!m.phase.outcome.ReadFailed? ==> TaskSectors(m.phase.task) <= m.fetched)
      && (forall k | m.phase.task.lba <= k < m.phase.task.lba +
            (if m.phase.Writing? then m.phase.done else Accepted(m.phase.outcome, m.phase.task.sectors))
            && 0 <= k < |m.dst| :: m.dst[k] == c.source[k])
  }

  lemma FetchSane(c: Config, m: Machine, o: Outcome)
    requires Sane(c, m) && Enabled(c, m, Fetch(o))
    ensures Sane(c, Act(c, m, Fetch(o)).1)
  {
    hide Choose;
    ChooseNear(c, m.sched, m.journal);
    var s := Choose(c, m.sched).value;
    TaskInZone(s);
    assert s.zones[s.current.value].end <= |m.journal|;
  }

  lemma JournalSane(c: Config, m: Machine)
    requires Sane(c, m) && Enabled(c, m, WriteJournalByte)
    ensures Sane(c, Act(c, m, WriteJournalByte).1)
  {
    var t, status := m.phase.task, StatusOf(m.phase.outcome, m.phase.task.sectors);
    var m' := Act(c, m, WriteJournalByte).1;
    var before: seq<SectorStatus>;
    if m.phase.Writing? {
      before := m.journal;
    } else {
      before :| |before| == |m.journal| && Exact(m.sched.zones, before)
                && PartlyMarked(before, m.journal, t, status, m.phase.done);
    }
    assert PartlyMarked(before, m'.journal, t, status, m'.phase.done);
  }

  lemma SettleSane(c: Config, m: Machine)
    requires Sane(c, m) && Enabled(c, m, Settle)
    ensures Sane(c, Act(c, m, Settle).1)
  {
    var t, o := m.phase.task, m.phase.outcome;
    var status := StatusOf(o, t.sectors);
    var before: seq<SectorStatus> :|
      |before| == |m.journal| && Exact(m.sched.zones, before) && PartlyMarked(before, m.journal, t, status, t.sectors);
    assert m.journal == Mark(before, t, status);
    ConsumeTracks(m.sched, BlockFailed(o), before, status);
  }

  lemma ActSane(c: Config, m: Machine, a: Action)
    requires Sane(c, m) && Enabled(c, m, a)
    ensures Sane(Act(c, m, a).0, Act(c, m, a).1)
  {
    match a
    case Fetch(o) => FetchSane(c, m, o);
    case WriteSector =>
    case WriteJournalByte => JournalSane(c, m);
    case Settle => SettleSane(c, m);
    case Restart(_) => ParseExact(m.journal);
  }

  predicate ShortWrite(a: Action) {
    a.Fetch? && a.outcome.WrittenShort?
  }

  /** No block in flight is one the destination cut short. */
  predicate NotShort(m: Machine) {
    !m.phase.Idle? ==> !m.phase.outcome.WrittenShort?
  }

  lemma FetchSafe(c: Config, m: Machine, o: Outcome, initial: seq<Content>)
    requires Sane(c, m) && Enabled(c, m, Fetch(o)) && !o.WrittenShort? && Safe(c, m, initial)
    ensures var r := Act(c, m, Fetch(o)); Safe(r.0, r.1, initial) && InFlight(r.0, r.1) && NotShort(r.1)
  {
    hide Choose, Proceed;
  }

  lemma WriteSafe(c: Config, m: Machine, initial: seq<Content>)
    requires Sane(c, m) && Enabled(c, m, WriteSector) && Safe(c, m, initial) && InFlight(c, m) && NotShort(m)
    ensures var r := Act(c, m, WriteSector); Safe(r.0, r.1, initial) && InFlight(r.0, r.1) && NotShort(r.1)
  {
    hide Choose, Proceed, Tracks, Near;
    var k := m.phase.task.lba + m.phase.done;
    assert k in TaskSectors(m.phase.task) by { assert InTask(m.phase.task, k); }
  }

  lemma JournalSafe(c: Config, m: Machine, initial: seq<Content>)
    requires Sane(c, m) && Enabled(c, m, WriteJournalByte) && Safe(c, m, initial) && InFlight(c, m) && NotShort(m)
    ensures var r := Act(c, m, WriteJournalByte); Safe(r.0, r.1, initial) && InFlight(r.0, r.1) && NotShort(r.1)
  {
    hide Choose, Proceed, Tracks, Near, Exact, PartlyMarked;
  }

  lemma ActSafe(c: Config, m: Machine, a: Action, initial: seq<Content>)
    requires Sane(c, m) && Enabled(c, m, a) && !ShortWrite(a)
    requires Safe(c, m, initial) && InFlight(c, m) && NotShort(m)
    ensures var r := Act(c, m, a); Safe(r.0, r.1, initial) && InFlight(r.0, r.1) && NotShort(r.1)
  {
    hide Choose, Proceed, Tracks, Near, Exact, PartlyMarked, UseResults;
    match a
    case Fetch(o) => FetchSafe(c, m, o, initial);
    case WriteSector => WriteSafe(c, m, initial);
    case WriteJournalByte => JournalSafe(c, m, initial);
    case Settle =>
    case Restart(_) =>
  }

  function RunActions(c: Config, m: Machine, actions: seq<Action>): (Config, Machine)
    decreases |actions|
  {
    if actions == [] || !Enabled(c, m, actions[0]) then (c, m)
    else
      var r := Act(c, m, actions[0]);
      RunActions(r.0, r.1, actions[1..])
  }

  /** After any sequence of single sector writes, journal bytes, block ends and crashes with
      restarts under any configuration: a sector journalled ReadOk holds the source's content,
      a sector no session has read holds what was there before, and the zones are sound. */
  lemma {:induction false} CrashSafe(c: Config, m: Machine, actions: seq<Action>, initial: seq<Content>)
    requires Sane(c, m) && Safe(c, m, initial) && InFlight(c, m) && NotShort(m)
    requires forall i | 0 <= i < |actions| :: !ShortWrite(actions[i])
    ensures var r := RunActions(c, m, actions); Safe(r.0, r.1, initial) && Sane(r.0, r.1)
    decreases |actions|
  {
    hide Act, Enabled;
    if actions != [] && Enabled(c, m, actions[0]) {
      ActSane(c, m, actions[0]);
      ActSafe(c, m, actions[0], initial);
      var r := Act(c, m, actions[0]);
      CrashSafe(r.0, r.1, actions[1..], initial);
    }
  }

  /** The machine a new copy starts as: a blank journal, and whatever the destination holds. */
  function BlankMachine(dst: seq<Content>, dstLength: int): Machine {
    var journal := Blank(|dst|);
    Machine(ResumedSched(journal), journal, dst, dstLength, dstLength, Idle, {})
  }

  lemma BlankIsSafe(c: Config, dst: seq<Content>, dstLength: int)
    requires ConfigOk(c) && |dst| == |c.source|
    ensures var m := BlankMachine(dst, dstLength);
            Sane(c, m) && Safe(c, m, dst) && InFlight(c, m) && NotShort(m)
  {
    ParseExact(Blank(|dst|));
  }

  /** A copy begun on any destination, over all its sessions: whenever it is stopped or crashes,
      what the journal calls read is on the destination and what nobody has read is as it was. */
  lemma CrashSafeFromBlank(c: Config, dst: seq<Content>, dstLength: int, actions: seq<Action>, k: int)
    requires ConfigOk(c) && |dst| == |c.source| && 0 <= k < |dst|
    requires forall i | 0 <= i < |actions| :: !ShortWrite(actions[i])
    ensures var m := RunActions(c, BlankMachine(dst, dstLength), actions).1;
            && |m.journal| == |m.dst| == |dst|
            && (m.journal[k] == ReadOk ==> m.dst[k] == c.source[k])
            && (k !in m.fetched ==> m.dst[k] == dst[k])
  {
    hide RunActions;
    BlankIsSafe(c, dst, dstLength);
    CrashSafe(c, BlankMachine(dst, dstLength), actions, dst);
    RunKeepsSource(c, BlankMachine(dst, dstLength), actions);
  }

  lemma {:induction false} RunKeepsSource(c: Config, m: Machine, actions: seq<Action>)
    ensures RunActions(c, m, actions).0.source == c.source
    decreases |actions|
  {
    if actions != [] && Enabled(c, m, actions[0]) {
      var r := Act(c, m, actions[0]);
      RunKeepsSource(r.0, r.1, actions[1..]);
    }
  }

  // ----- without a crash the single writes add up to one block -----

  lemma RunFirst(c: Config, m: Machine, a: Action, rest: seq<Action>)
    requires Enabled(c, m, a)
    ensures RunActions(c, m, [a] + rest) == RunActions(Act(c, m, a).0, Act(c, m, a).1, rest)
  {
    assert ([a] + rest)[1..] == rest;
  }

  lemma WritesRun(c: Config, m: Machine, n: nat, rest: seq<Action>)
    requires m.phase.Writing? && m.phase.done + n <= Accepted(m.phase.outcome, m.phase.task.sectors)
    requires |m.dst| == |c.source| && 0 <= m.phase.task.lba && m.phase.task.lba + m.phase.done + n <= |m.dst|
    ensures var t := m.phase.task;
            RunActions(c, m, seq(n, _ => WriteSector) + rest) ==
            RunActions(c, m.(dst := WriteDst(m.dst, c.source, Task(t.lba + m.phase.done, n), n),
                             dstLength := Extended(m.dstLength, t.lba + m.phase.done, n),
                             phase := Writing(t, m.phase.outcome, m.phase.done + n)), rest)
    decreases n
  {
    hide RunActions;
    var actions := seq(n, _ => WriteSector) + rest;
    var t := m.phase.task;
    if n == 0 {
      assert actions == rest;
      assert WriteDst(m.dst, c.source, Task(t.lba + m.phase.done, 0), 0) == m.dst;
    } else {
      assert actions == [WriteSector] + (seq(n - 1, _ => WriteSector) + rest);
      RunFirst(c, m, WriteSector, seq(n - 1, _ => WriteSector) + rest);
      var m1 := Act(c, m, WriteSector).1;
      WritesRun(c, m1, n - 1, rest);
      assert WriteDst(m1.dst, c.source, Task(t.lba + m1.phase.done, n - 1), n - 1)
          == WriteDst(m.dst, c.source, Task(t.lba + m.phase.done, n), n);
    }
  }

  lemma JournalRuns(c: Config, m: Machine, n: nat, rest: seq<Action>)
    requires m.phase.Journalling? && m.phase.done + n <= m.phase.task.sectors
    requires 0 <= m.phase.task.lba && m.phase.task.lba + m.phase.task.sectors <= |m.journal|
    ensures var t, status := m.phase.task, StatusOf(m.phase.outcome, m.phase.task.sectors);
            RunActions(c, m, seq(n, _ => WriteJournalByte) + rest) ==
            RunActions(c, m.(journal := Mark(m.journal, Task(t.lba + m.phase.done, n), status),
                             phase := Journalling(t, m.phase.outcome, m.phase.done + n)), rest)
    decreases n
  {
    hide RunActions, StatusOf;
    var actions := seq(n, _ => WriteJournalByte) + rest;
    var t, status := m.phase.task, StatusOf(m.phase.outcome, m.phase.task.sectors);
    if n == 0 {
      assert actions == rest;
      assert Mark(m.journal, Task(t.lba + m.phase.done, 0), status) == m.journal;
    } else {
      assert actions == [WriteJournalByte] + (seq(n - 1, _ => WriteJournalByte) + rest);
      RunFirst(c, m, WriteJournalByte, seq(n - 1, _ => WriteJournalByte) + rest);
      var m1 := Act(c, m, WriteJournalByte).1;
      JournalRuns(c, m1, n - 1, rest);
      assert Mark(m1.journal, Task(t.lba + m1.phase.done, n - 1), status)
          == Mark(m.journal, Task(t.lba + m.phase.done, n), status);
    }
  }

  /** All single actions of one block, in the order the procedure takes them. */
  function BlockActions(o: Outcome, n: nat): seq<Action>
    requires n > 0
  {
    [Fetch(o)] + (seq(Accepted(o, n), _ => WriteSector) + (seq(n, _ => WriteJournalByte) + [Settle]))
  }

  lemma JournalPhase(c: Config, m: Machine)
    requires m.phase.Writing? && m.phase.done == Accepted(m.phase.outcome, m.phase.task.sectors)
    requires 0 <= m.phase.task.lba && 0 < m.phase.task.sectors && m.phase.task.lba + m.phase.task.sectors <= |m.journal|
    requires m.sched.current.Some? && m.sched.current.value < |m.sched.zones|
    ensures var t, o := m.phase.task, m.phase.outcome;
            RunActions(c, m, seq(t.sectors, _ => WriteJournalByte) + [Settle]) ==
            (c, m.(journal := Mark(m.journal, t, StatusOf(o, t.sectors)),
                   sched := UseResults(c, m.sched, t.sectors, BlockFailed(o)), phase := Idle))
  {
    hide RunActions, StatusOf, UseResults;
    var t, o := m.phase.task, m.phase.outcome;
    var status, none := StatusOf(o, t.sectors), [];
    var rest := seq(t.sectors - 1, _ => WriteJournalByte) + [Settle];
    assert seq(t.sectors, _ => WriteJournalByte) + [Settle] == [WriteJournalByte] + rest;
    RunFirst(c, m, WriteJournalByte, rest);
    var m1 := Act(c, m, WriteJournalByte).1;
    JournalRuns(c, m1, t.sectors - 1, [Settle]);
    assert Mark(m1.journal, Task(t.lba + 1, t.sectors - 1), status) == Mark(m.journal, t, status);
    var m2 := m1.(journal := Mark(m.journal, t, status), phase := Journalling(t, o, t.sectors));
    assert [Settle] + none == [Settle];
    RunFirst(c, m2, Settle, none);
    NothingRuns(Act(c, m2, Settle).0, Act(c, m2, Settle).1);
  }

  lemma NothingRuns(c: Config, m: Machine)
    ensures RunActions(c, m, []) == (c, m)
  {
  }

  /** When nothing crashes, the single actions of a block do exactly what one block of the
      copy does to scheduler, journal and destination. */
  lemma BlockIsStep(c: Config, s: Copy, o: Outcome, fetched: set<int>)
    requires Valid(c, s) && s.num < s.den && Step(c, s, o).Done?
    ensures Step(c, s, o).task.sectors > 0
    ensures var r := Step(c, s, o);
            var m := Machine(s.sched, s.journal, s.dst, s.dstLength, s.dstEnd, Idle, fetched);
            var last := RunActions(c, m, BlockActions(o, r.task.sectors));
            && last.0 == c && last.1.phase == Idle
            && last.1.sched == r.next.sched && last.1.journal == r.next.journal && last.1.dst == r.next.dst
            && last.1.dstLength == r.next.dstLength && last.1.dstEnd == r.next.dstEnd
            && (forall k :: k in last.1.fetched <==> k in fetched || (!o.ReadFailed? && InTask(r.task, k)))
  {
    hide Choose, UseResults, RunActions, Mark, Near, Exact, Tracks;
    HasZones(c, s);
    ProcessOk(c, s, o);
    var r := Step(c, s, o);
    var t := r.task;
    var m := Machine(s.sched, s.journal, s.dst, s.dstLength, s.dstEnd, Idle, fetched);
    var rest := seq(t.sectors, _ => WriteJournalByte) + [Settle];
    RunFirst(c, m, Fetch(o), seq(Accepted(o, t.sectors), _ => WriteSector) + rest);
    var m1 := Act(c, m, Fetch(o)).1;
    WritesRun(c, m1, Accepted(o, t.sectors), rest);
    assert WriteDst(m1.dst, c.source, Task(t.lba, Accepted(o, t.sectors)), Accepted(o, t.sectors)) == r.next.dst;
    JournalPhase(c, m1.(dst := r.next.dst, dstLength := r.next.dstLength,
                        phase := Writing(t, o, Accepted(o, t.sectors))));
  }

  // ----- a crash in the middle of a block -----

  lemma CrashRuns(c: Config, m: Machine, b: nat, c': Config)
    requires m.phase.Writing? && 0 <= m.phase.task.lba && m.phase.task.lba + m.phase.task.sectors <= |m.journal|
    requires b <= m.phase.task.sectors
    requires b > 0 ==> m.phase.done == Accepted(m.phase.outcome, m.phase.task.sectors)
    requires c'.source == c.source && c'.skipBlocks >= 1
    ensures var t := m.phase.task;
            var journal := Mark(m.journal, Task(t.lba, b), StatusOf(m.phase.outcome, t.sectors));
            RunActions(c, m, seq(b, _ => WriteJournalByte) + [Restart(c')]) ==
            (c', m.(journal := journal, sched := ResumedSched(journal), dstEnd := m.dstLength, phase := Idle))
  {
    hide RunActions, StatusOf;
    var t, status := m.phase.task, StatusOf(m.phase.outcome, m.phase.task.sectors);
    if b == 0 {
      assert seq(b, _ => WriteJournalByte) + [Restart(c')] == [Restart(c')] + [];
      assert Mark(m.journal, Task(t.lba, 0), status) == m.journal;
      Restarts(c, m, c');
    } else {
      var rest := seq(b - 1, _ => WriteJournalByte) + [Restart(c')];
      assert seq(b, _ => WriteJournalByte) + [Restart(c')] == [WriteJournalByte] + rest;
      RunFirst(c, m, WriteJournalByte, rest);
      var m1 := Act(c, m, WriteJournalByte).1;
      JournalRuns(c, m1, b - 1, [Restart(c')]);
      assert Mark(m1.journal, Task(t.lba + 1, b - 1), status) == Mark(m.journal, Task(t.lba, b), status);
      assert [Restart(c')] + [] == [Restart(c')];
      Restarts(c, m1.(journal := Mark(m.journal, Task(t.lba, b), status),
                      phase := Journalling(t, m.phase.outcome, b)), c');
    }
  }

  /** Whatever the copy is in the middle of, it can crash and be started again. */
  lemma Restarts(c: Config, m: Machine, c': Config)
    requires c'.source == c.source && c'.skipBlocks >= 1
    ensures RunActions(c, m, [Restart(c')] + []) ==
            (c', m.(sched := ResumedSched(m.journal), dstEnd := m.dstLength, phase := Idle))
  {
    var none: seq<Action> := [];
    RunFirst(c, m, Restart(c'), none);
  }

  /** A copy can crash after any single write of a block and be started again: the first `w` sectors of the
      block are on the destination, and once all it takes are, the first `b` of its bytes in the journal;
      nothing else has changed, and the new session has the zones of that journal and that destination. */
  lemma CrashInBlock(c: Config, s: Copy, o: Outcome, fetched: set<int>, w: nat, b: nat, c': Config)
    requires Valid(c, s) && s.num < s.den && Step(c, s, o).Done?
    requires var n := Step(c, s, o).task.sectors; w <= Accepted(o, n) && b <= n && (b > 0 ==> w == Accepted(o, n))
    requires c'.source == c.source && c'.skipBlocks >= 1
    ensures var t := Step(c, s, o).task;
            var m := Machine(s.sched, s.journal, s.dst, s.dstLength, s.dstEnd, Idle, fetched);
            var crash := seq(b, _ => WriteJournalByte) + [Restart(c')];
            var last := RunActions(c, m, [Fetch(o)] + (seq(w, _ => WriteSector) + crash));
            && last.0 == c' && last.1.phase == Idle && last.1.sched == ResumedSched(last.1.journal)
            && |last.1.dst| == |last.1.journal| == |s.journal| == |s.dst| == |c.source|
            && (forall k | 0 <= k < |s.dst| ::
                  last.1.dst[k] == if t.lba <= k < t.lba + w then c.source[k] else s.dst[k])
            && (forall k | 0 <= k < |s.journal| ::
                  last.1.journal[k] == if t.lba <= k < t.lba + b then StatusOf(o, t.sectors) else s.journal[k])
            && (forall k :: k in last.1.fetched <==> k in fetched || (!o.ReadFailed? && InTask(t, k)))
            && last.1.dstEnd == last.1.dstLength
            && last.1.dstLength == (if w > 0 && t.lba + w > s.dstLength then t.lba + w else s.dstLength)
  {
    hide Step, RunActions, Valid, StatusOf, Accepted;
    var t := Step(c, s, o).task;
    var m := Machine(s.sched, s.journal, s.dst, s.dstLength, s.dstEnd, Idle, fetched);
    var rest := seq(b, _ => WriteJournalByte) + [Restart(c')];
    FetchStarts(c, s, o, fetched);
    hide Act, Enabled;
    RunFirst(c, m, Fetch(o), seq(w, _ => WriteSector) + rest);
    var m1 := Act(c, m, Fetch(o)).1;
    WritesRun(c, m1, w, rest);
    CrashRuns(c, m1.(dst := WriteDst(s.dst, c.source, Task(t.lba, w), w), dstLength := Extended(s.dstLength, t.lba, w),
                     phase := Writing(t, o, w)), b, c');
  }

  /** Fetching is what a step begins with. */
  lemma FetchStarts(c: Config, s: Copy, o: Outcome, fetched: set<int>)
    requires Valid(c, s) && s.num < s.den && Step(c, s, o).Done?
    ensures |s.journal| == |s.dst| == |c.source|
    ensures 0 <= Accepted(o, Step(c, s, o).task.sectors) <= Step(c, s, o).task.sectors
    ensures var t := Step(c, s, o).task;
            var m := Machine(s.sched, s.journal, s.dst, s.dstLength, s.dstEnd, Idle, fetched);
            && 0 <= t.lba && 0 < t.sectors && t.lba + t.sectors <= |s.journal| && Enabled(c, m, Fetch(o))
            && var r := Act(c, m, Fetch(o));
               && r.0 == c && r.1.phase == Writing(t, o, 0) && r.1.journal == s.journal && r.1.dst == s.dst
               && r.1.dstLength == s.dstLength && r.1.dstEnd == s.dstEnd
               && (forall k :: k in r.1.fetched <==> k in fetched || (!o.ReadFailed? && InTask(t, k)))
  {
    hide Choose, UseResults, Near, Exact, Tracks;
    HasZones(c, s);
    ProcessOk(c, s, o);
  }

  // ----- short writes are where the guarantee ends -----

  ghost predicate JournalHonest(c: Config, s: Copy) {
    && |s.journal| == |s.dst| == |c.source|
    && forall k | 0 <= k < |s.dst| && s.journal[k] == ReadOk :: s.dst[k] == c.source[k]
  }

  /** One block keeps ReadOk bytes truthful if and only if the destination took all of it, or
      already held the sectors it did not take. */
  lemma ShortWriteExactly(c: Config, s: Copy, o: Outcome)
    requires Valid(c, s) && s.num < s.den && JournalHonest(c, s) && Step(c, s, o).Done?
    ensures var r := Step(c, s, o); var t := r.task;
            && 0 <= t.lba && t.lba + t.sectors <= |s.dst|
            && (JournalHonest(c, r.next) <==>
                (!o.WrittenShort? ||
                 forall k | t.lba + Accepted(o, t.sectors) <= k < t.lba + t.sectors :: s.dst[k] == c.source[k]))
  {
    hide Choose, UseResults;
    HasZones(c, s);
    ProcessOk(c, s, o);
    var r := Step(c, s, o);
    var t := r.task;
    if o.WrittenShort? && JournalHonest(c, r.next) {
      forall k | t.lba + Accepted(o, t.sectors) <= k < t.lba + t.sectors ensures s.dst[k] == c.source[k] {
        assert r.next.journal[k] == ReadOk && r.next.dst[k] == s.dst[k];
      }
    }
  }
}
