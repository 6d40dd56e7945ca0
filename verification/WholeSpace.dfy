/** The whole-space renderer's block map and sector counters against the copy's journal. */
module WholeSpace {
  import opened CopyTypes
  import opened ReadStrategies
  import opened ZoneCover
  import opened CopyRun
  import opened CopyBounds
  import opened CopyHistory
  import opened CopyResume
  import opened CopyAlignment
  import opened CopyProcedure

  /** What the legend distinguishes: unread space, read without errors, read errors. */
  datatype Class = Unseen | Good | Bad

  function ClassOf(status: SectorStatus): Class {
    match status
    case Unread => Unseen
    case ReadOk => Good
    case BlockReadError => Bad
    case SectorReadError => Bad
  }

  /** A journal byte as it lies in the map. */
  function CodeOf(status: SectorStatus): int {
    match status
    case Unread => 0
    case ReadOk => 1
    case BlockReadError => 2
    case SectorReadError => 3
  }

  /** What `render_map` takes a cell of the map for: it knows 2 and 0, all else is fine to it. */
  function ClassOfCode(code: int): Class {
    if code == 2 then Bad else if code == 0 then Unseen else Good
  }

  datatype Counters = Counters(unread: int, readOk: int, errors: int)

  function Of(c: Counters, class_: Class): int {
    match class_
    case Unseen => c.unread
    case Good => c.readOk
    case Bad => c.errors
  }

  function Added(c: Counters, class_: Class, n: int): Counters {
    match class_
    case Unseen => c.(unread := c.unread + n)
    case Good => c.(readOk := c.readOk + n)
    case Bad => c.(errors := c.errors + n)
  }

  function CountClass(journal: seq<SectorStatus>, class_: Class): int {
    if journal == [] then 0
    else CountClass(journal[..|journal| - 1], class_) + if ClassOf(journal[|journal| - 1]) == class_ then 1 else 0
  }

  /** The sectors `Open` takes a block to have: for the last one, the remainder of the disk. */
  function Assumed(size: int, i: int): int {
    if i == Needed(SECTORS_AT_ONCE, size) - 1 then size % SECTORS_AT_ONCE else SECTORS_AT_ONCE
  }

  /** The counters after importing the first `n` blocks. */
  function Imported(journal: seq<SectorStatus>, n: nat): Counters
    requires n <= Needed(SECTORS_AT_ONCE, |journal|)
  {
    if n == 0 then Counters(0, 0, 0)
    else Added(Imported(journal, n - 1), ClassOf(journal[SECTORS_AT_ONCE * (n - 1)]), Assumed(|journal|, n - 1))
  }

  /** What a report does to a map and counters. */
  function Shown(map_: seq<int>, r: Report): seq<int>
    requires 0 <= r.lba / SECTORS_AT_ONCE < |map_|
  {
    map_[r.lba / SECTORS_AT_ONCE := if r.failed then 2 else 1]
  }

  function Recount(c: Counters, r: Report): Counters {
    Added(c, if r.failed then Bad else Good, r.sectors).(unread := c.unread - r.sectors)
  }

  /** Each cell shows the first byte of its block. */
  predicate Sampled(map_: seq<int>, journal: seq<SectorStatus>) {
    forall i | 0 <= i < |map_| :: SECTORS_AT_ONCE * i < |journal| && map_[i] == CodeOf(journal[SECTORS_AT_ONCE * i])
  }

  class View {
    const map_: array<int>
    var counts: Counters

    constructor (size: nat)
      ensures fresh(map_) && map_.Length == Needed(SECTORS_AT_ONCE, size)
    {
      map_ := new int[Needed(SECTORS_AT_ONCE, size)](_ => 0);
      counts := Counters(0, 0, 0);
    }

    /** The journal import of `Open`: every block is taken to be like its first sector. */
    method ImportJournal(journal: array<SectorStatus>)
      requires map_.Length == Needed(SECTORS_AT_ONCE, journal.Length)
      modifies this, map_
      ensures counts == Imported(journal[..], map_.Length)
      ensures Sampled(map_[..], journal[..])
    {
      counts := Counters(0, 0, 0);
      for i := 0 to map_.Length
        invariant counts == Imported(journal[..], i)
        invariant forall j | 0 <= j < i ::
                    SECTORS_AT_ONCE * j < journal.Length && map_[j] == CodeOf(journal[SECTORS_AT_ONCE * j])
      {
        var lba := i * SECTORS_AT_ONCE;
        var sectorStatus := journal[lba];
        map_[i] := CodeOf(sectorStatus);
        var sectorsInBlock := SECTORS_AT_ONCE;
        if i == map_.Length - 1 {
          sectorsInBlock := journal.Length % SECTORS_AT_ONCE;
        }
        match sectorStatus {
          case Unread => counts := counts.(unread := counts.unread + sectorsInBlock);
          case ReadOk => counts := counts.(readOk := counts.readOk + sectorsInBlock);
          case BlockReadError => counts := counts.(errors := counts.errors + sectorsInBlock);
          case SectorReadError => counts := counts.(errors := counts.errors + sectorsInBlock);
        }
      }
    }

    /** One cell of `render_map`, which stands for the blocks from `from` up to `to`. */
    method RenderCell(from: nat, to: nat) returns (cell: Class)
      requires from < to <= map_.Length
      ensures cell == Bad <==> exists j :: from <= j < to && ClassOfCode(map_[j]) == Bad
      ensures cell == Good <==> forall j | from <= j < to :: ClassOfCode(map_[j]) == Good
    {
      var fullyProcessed, errors := true, false;
      var j := from;
      while j < to
        invariant from <= j <= to && !errors
        invariant forall i | from <= i < j :: ClassOfCode(map_[i]) != Bad
        invariant fullyProcessed <==> forall i | from <= i < j :: ClassOfCode(map_[i]) == Good
      {
        if map_[j] == 2 {
          errors := true;
          break;
        }
        if map_[j] == 0 {
          fullyProcessed := false;
        }
        j := j + 1;
      }
      if errors {
        assert ClassOfCode(map_[j]) == Bad;
      }
      return if errors then Bad else if !fullyProcessed then Unseen else Good;
    }

    /** `update_blocks_info`. */
    method UpdateBlocksInfo(r: Report)
      requires 0 <= r.lba / SECTORS_AT_ONCE < map_.Length
      modifies this, map_
      ensures map_[..] == Shown(old(map_[..]), r) && counts == Recount(old(counts), r)
    {
      if r.failed {
        map_[r.lba / SECTORS_AT_ONCE] := 2;
        counts := counts.(errors := counts.errors + r.sectors);
      } else {
        map_[r.lba / SECTORS_AT_ONCE] := 1;
        counts := counts.(readOk := counts.readOk + r.sectors);
      }
      counts := counts.(unread := counts.unread - r.sectors);
    }
  }

  // ----- counting by blocks -----

  lemma {:induction false} CountClassAppend(a: seq<SectorStatus>, b: seq<SectorStatus>, class_: Class)
    ensures CountClass(a + b, class_) == CountClass(a, class_) + CountClass(b, class_)
  {
    if b == [] {
      assert a + b == a;
    } else {
      CountClassAppend(a, b[..|b| - 1], class_);
      assert (a + b)[..|a + b| - 1] == a + b[..|b| - 1];
    }
  }

  lemma {:induction false} CountConstant(block: seq<SectorStatus>, class_: Class, of: Class)
    requires forall k | 0 <= k < |block| :: ClassOf(block[k]) == of
    ensures CountClass(block, class_) == if of == class_ then |block| else 0
  {
    if block != [] { CountConstant(block[..|block| - 1], class_, of); }
  }

  function BlockEnd(size: int, i: int): int {
    if SECTORS_AT_ONCE * (i + 1) < size then SECTORS_AT_ONCE * (i + 1) else size
  }

  lemma UniformBlock(journal: seq<SectorStatus>, i: nat)
    requires Uniform(journal) && i < Needed(SECTORS_AT_ONCE, |journal|)
    ensures SECTORS_AT_ONCE * i < BlockEnd(|journal|, i) <= |journal|
    ensures forall k | SECTORS_AT_ONCE * i <= k < BlockEnd(|journal|, i) :: journal[k] == journal[SECTORS_AT_ONCE * i]
  {
    forall k | SECTORS_AT_ONCE * i <= k < BlockEnd(|journal|, i) ensures journal[k] == journal[SECTORS_AT_ONCE * i] {
      assert Align(k) == SECTORS_AT_ONCE * i;
    }
  }

  /** What the import misses of a class: the last block, when the disk is a whole number of blocks. */
  function Missed(journal: seq<SectorStatus>, class_: Class): int {
    if |journal| > 0 && |journal| % SECTORS_AT_ONCE == 0 && ClassOf(journal[|journal| - 1]) == class_
    then SECTORS_AT_ONCE else 0
  }

  lemma NothingImported(journal: seq<SectorStatus>, class_: Class)
    ensures Of(Imported(journal, 0), class_) == 0 == CountClass(journal[..0], class_)
    ensures Needed(SECTORS_AT_ONCE, |journal|) == 0 ==> Missed(journal, class_) == 0
  {
  }

  lemma ImportStep(journal: seq<SectorStatus>, n: nat, class_: Class)
    requires 0 < n <= Needed(SECTORS_AT_ONCE, |journal|)
    ensures SECTORS_AT_ONCE * (n - 1) < |journal|
    ensures Of(Imported(journal, n), class_) == Of(Imported(journal, n - 1), class_)
            + if ClassOf(journal[SECTORS_AT_ONCE * (n - 1)]) == class_ then Assumed(|journal|, n - 1) else 0
  {
  }

  /** The size the import takes a block to have, against its true one. */
  lemma LastBlockMissed(journal: seq<SectorStatus>, n: nat, class_: Class)
    requires Uniform(journal) && 0 < n <= Needed(SECTORS_AT_ONCE, |journal|)
    ensures SECTORS_AT_ONCE * (n - 1) < BlockEnd(|journal|, n - 1) <= |journal|
    ensures var from, to := SECTORS_AT_ONCE * (n - 1), BlockEnd(|journal|, n - 1);
            && to == (if SECTORS_AT_ONCE * n < |journal| then SECTORS_AT_ONCE * n else |journal|)
            && (if ClassOf(journal[from]) == class_ then to - from - Assumed(|journal|, n - 1) else 0)
               == (if n == Needed(SECTORS_AT_ONCE, |journal|) then Missed(journal, class_) else 0)
  {
    UniformBlock(journal, n - 1);
    assert n == Needed(SECTORS_AT_ONCE, |journal|) ==> journal[|journal| - 1] == journal[SECTORS_AT_ONCE * (n - 1)];
  }

  lemma BlockCounts(journal: seq<SectorStatus>, i: nat, class_: Class)
    requires Uniform(journal) && i < Needed(SECTORS_AT_ONCE, |journal|)
    ensures var from, to := SECTORS_AT_ONCE * i, BlockEnd(|journal|, i);
            && from < to <= |journal|
            && CountClass(journal[..to], class_) == CountClass(journal[..from], class_)
               + if ClassOf(journal[from]) == class_ then to - from else 0
  {
    hide CountClass, ClassOf;
    var from, to := SECTORS_AT_ONCE * i, BlockEnd(|journal|, i);
    UniformBlock(journal, i);
    hide Uniform, Needed, BlockEnd;
    assert journal[..to] == journal[..from] + journal[from..to];
    CountClassAppend(journal[..from], journal[from..to], class_);
    assert forall k | 0 <= k < to - from :: journal[from..to][k] == journal[from + k] == journal[from];
    CountConstant(journal[from..to], class_, ClassOf(journal[from]));
  }

  lemma {:induction false} ImportCountsTo(journal: seq<SectorStatus>, n: nat, class_: Class)
    requires Uniform(journal) && n <= Needed(SECTORS_AT_ONCE, |journal|)
    ensures var upTo := if SECTORS_AT_ONCE * n < |journal| then SECTORS_AT_ONCE * n else |journal|;
            Of(Imported(journal, n), class_) == CountClass(journal[..upTo], class_)
            - (if n == Needed(SECTORS_AT_ONCE, |journal|) then Missed(journal, class_) else 0)
  {
    if n > 0 {
      hide Imported, CountClass, Missed, Uniform, BlockEnd, Assumed, ClassOf, Of;
      ImportCountsTo(journal, n - 1, class_);
      ImportStep(journal, n, class_);
      BlockCounts(journal, n - 1, class_);
      LastBlockMissed(journal, n, class_);
    } else {
      NothingImported(journal, class_);
    }
  }

  /** After the import each counter is the number of sectors of its class, except that a last
      block of full size is counted as empty. */
  lemma ImportExact(journal: seq<SectorStatus>, class_: Class)
    requires Uniform(journal)
    ensures Of(Imported(journal, Needed(SECTORS_AT_ONCE, |journal|)), class_)
         == CountClass(journal, class_) - Missed(journal, class_)
  {
    ImportCountsTo(journal, Needed(SECTORS_AT_ONCE, |journal|), class_);
    assert journal[..|journal|] == journal;
  }

  lemma {:induction false} ClassesAddUp(journal: seq<SectorStatus>)
    ensures CountClass(journal, Unseen) + CountClass(journal, Good) + CountClass(journal, Bad) == |journal|
  {
    if journal != [] { ClassesAddUp(journal[..|journal| - 1]); }
  }

  /** The imported counters cover the disk if and only if its last block is a short one. */
  lemma ImportCoversExactly(journal: seq<SectorStatus>)
    requires Uniform(journal) && |journal| > 0
    ensures var c := Imported(journal, Needed(SECTORS_AT_ONCE, |journal|));
            c.unread + c.readOk + c.errors == |journal| <==> |journal| % SECTORS_AT_ONCE != 0
  {
    ImportExact(journal, Unseen);
    ImportExact(journal, Good);
    ImportExact(journal, Bad);
    ClassesAddUp(journal);
  }

  // ----- the map and the counters against the journal -----

  /** What a sector is shown as when its byte was `imported` and is `now`: the import brings a code
      the display does not know. */
  function ShownAs(imported: SectorStatus, now: SectorStatus): Class {
    if imported == SectorReadError then Good else ClassOf(now)
  }

  /** Every sector is shown, by the cell of its block, as its byte says. */
  ghost predicate MapTrue(map_: seq<int>, journal: seq<SectorStatus>) {
    && |map_| == Needed(SECTORS_AT_ONCE, |journal|)
    && forall k | 0 <= k < |journal| ::
         0 <= k / SECTORS_AT_ONCE < |map_| && ClassOfCode(map_[k / SECTORS_AT_ONCE]) == ClassOf(journal[k])
  }

  /** The same up to the code the display does not know; `imported` is the journal at the import. */
  ghost predicate MapShows(map_: seq<int>, journal: seq<SectorStatus>, imported: seq<SectorStatus>) {
    && |map_| == Needed(SECTORS_AT_ONCE, |journal|) && |imported| == |journal|
    && forall k | 0 <= k < |journal| ::
         0 <= k / SECTORS_AT_ONCE < |map_| && ClassOfCode(map_[k / SECTORS_AT_ONCE]) == ShownAs(imported[k], journal[k])
  }

  /** Only unread bytes have been written since the import. */
  ghost predicate Grown(journal: seq<SectorStatus>, imported: seq<SectorStatus>) {
    |imported| == |journal| && forall k | 0 <= k < |journal| && journal[k] != imported[k] :: imported[k] == Unread
  }

  /** The counters are the journal's but for a constant `missed`. */
  ghost predicate CountsTrue(c: Counters, journal: seq<SectorStatus>, missed: Counters) {
    forall class_ :: Of(c, class_) == CountClass(journal, class_) - Of(missed, class_)
  }

  ghost predicate Summarises(map_: seq<int>, c: Counters, journal: seq<SectorStatus>, imported: seq<SectorStatus>,
                             missed: Counters) {
    MapShows(map_, journal, imported) && Grown(journal, imported) && CountsTrue(c, journal, missed)
  }

  ghost predicate NoSectorError(journal: seq<SectorStatus>) {
    forall k | 0 <= k < |journal| :: journal[k] != SectorReadError
  }

  /** The map is true if and only if the journal it was imported from had no single-sector error. */
  lemma MapTrueExactly(map_: seq<int>, journal: seq<SectorStatus>, imported: seq<SectorStatus>)
    requires MapShows(map_, journal, imported) && Grown(journal, imported)
    ensures MapTrue(map_, journal) <==> NoSectorError(imported)
  {
    if MapTrue(map_, journal) {
      forall k | 0 <= k < |imported| ensures imported[k] != SectorReadError {
        assert ClassOfCode(map_[k / SECTORS_AT_ONCE]) == ClassOf(journal[k]) == ShownAs(imported[k], journal[k]);
      }
    }
  }

  lemma ImportedMap(journal: seq<SectorStatus>, map_: seq<int>, k: int)
    requires Uniform(journal) && |map_| == Needed(SECTORS_AT_ONCE, |journal|) && 0 <= k < |journal|
    requires Sampled(map_, journal)
    ensures 0 <= k / SECTORS_AT_ONCE < |map_|
    ensures ClassOfCode(map_[k / SECTORS_AT_ONCE]) == ShownAs(journal[k], journal[k])
  {
    assert Align(k) == SECTORS_AT_ONCE * (k / SECTORS_AT_ONCE);
    assert journal[k] == journal[Align(k)];
  }

  /** What the counters miss after the import. */
  function AllMissed(journal: seq<SectorStatus>): Counters {
    Counters(Missed(journal, Unseen), Missed(journal, Good), Missed(journal, Bad))
  }

  lemma ImportSummarises(journal: seq<SectorStatus>, map_: seq<int>)
    requires Uniform(journal) && |map_| == Needed(SECTORS_AT_ONCE, |journal|) && Sampled(map_, journal)
    ensures Summarises(map_, Imported(journal, |map_|), journal, journal, AllMissed(journal))
  {
    hide Imported, CountClass, Missed, Needed, Uniform, Sampled;
    forall class_
      ensures Of(Imported(journal, |map_|), class_) == CountClass(journal, class_) - Missed(journal, class_)
    {
      ImportExact(journal, class_);
    }
    forall k | 0 <= k < |journal|
      ensures 0 <= k / SECTORS_AT_ONCE < |map_|
      ensures ClassOfCode(map_[k / SECTORS_AT_ONCE]) == ShownAs(journal[k], journal[k])
    {
      ImportedMap(journal, map_, k);
    }
  }

  /** Importing a block-wise journal gives a true map if and only if no byte of it says that a single
      sector failed. */
  lemma ImportShowsExactly(journal: seq<SectorStatus>, map_: seq<int>)
    requires Uniform(journal) && |map_| == Needed(SECTORS_AT_ONCE, |journal|) && Sampled(map_, journal)
    ensures MapTrue(map_, journal) <==> NoSectorError(journal)
  {
    hide MapShows, MapTrue, CountsTrue, NoSectorError;
    ImportSummarises(journal, map_);
    MapTrueExactly(map_, journal, journal);
  }

  lemma MarkCounts(journal: seq<SectorStatus>, t: Task, status: SectorStatus, class_: Class)
    requires 0 <= t.lba && 0 <= t.sectors && t.lba + t.sectors <= |journal|
    requires status != Unread && forall k | InTask(t, k) :: journal[k] == Unread
    ensures CountClass(Mark(journal, t, status), class_) == CountClass(journal, class_)
            - (if class_ == Unseen then t.sectors else 0) + (if class_ == ClassOf(status) then t.sectors else 0)
  {
    hide CountClass;
    var a, b, c := journal[..t.lba], journal[t.lba..t.lba + t.sectors], journal[t.lba + t.sectors..];
    var b' := seq(t.sectors, _ => status);
    assert journal == a + (b + c) && Mark(journal, t, status) == a + (b' + c);
    CountClassAppend(a, b + c, class_);
    CountClassAppend(b, c, class_);
    CountClassAppend(a, b' + c, class_);
    CountClassAppend(b', c, class_);
    CountConstant(b, class_, Unseen);
    CountConstant(b', class_, ClassOf(status));
  }

  // ----- reports -----

  /** A report handled: cell and counters change, if there is such a cell. */
  function Apply(map_: seq<int>, c: Counters, r: Report): (seq<int>, Counters) {
    if 0 <= r.lba / SECTORS_AT_ONCE < |map_| then (Shown(map_, r), Recount(c, r)) else (map_, c)
  }

  /** Map and counters after so many reports. */
  ghost function Follow(map_: seq<int>, c: Counters, reports: seq<Report>): (seq<int>, Counters)
    decreases |reports|
  {
    if reports == [] then (map_, c)
    else
      var next := Apply(map_, c, reports[0]);
      Follow(next.0, next.1, reports[1..])
  }

  lemma {:induction false} FollowAppend(map_: seq<int>, c: Counters, reports: seq<Report>, r: Report)
    ensures var f := Follow(map_, c, reports); Follow(map_, c, reports + [r]) == Apply(f.0, f.1, r)
    decreases |reports|
  {
    if reports == [] {
      assert [r][1..] == [];
    } else {
      var next := Apply(map_, c, reports[0]);
      FollowAppend(next.0, next.1, reports[1..], r);
      assert (reports + [r])[1..] == reports[1..] + [r];
    }
  }

  lemma ReportMap(map_: seq<int>, journal: seq<SectorStatus>, imported: seq<SectorStatus>,
                  t: Task, status: SectorStatus)
    requires MapShows(map_, journal, imported) && Grown(journal, imported) && WholeBlock(t, |journal|)
    requires 0 <= t.lba && t.lba + t.sectors <= |journal|
    requires status != Unread && forall k | InTask(t, k) :: journal[k] == Unread
    ensures 0 <= t.lba / SECTORS_AT_ONCE < |map_|
    ensures var r := Report(t.lba, t.sectors, IsError(status));
            MapShows(Shown(map_, r), Mark(journal, t, status), imported) && Grown(Mark(journal, t, status), imported)
  {
    assert InTask(t, t.lba);
    assert ClassOfCode(map_[t.lba / SECTORS_AT_ONCE]) == ShownAs(imported[t.lba], journal[t.lba]);
    var r := Report(t.lba, t.sectors, IsError(status));
    var map', journal' := Shown(map_, r), Mark(journal, t, status);
    forall k | 0 <= k < |journal'|
      ensures 0 <= k / SECTORS_AT_ONCE < |map'|
      ensures ClassOfCode(map'[k / SECTORS_AT_ONCE]) == ShownAs(imported[k], journal'[k])
    {
      assert ClassOfCode(map_[k / SECTORS_AT_ONCE]) == ShownAs(imported[k], journal[k]);
      SameCell(t, |journal|, k);
      if InTask(t, k) { assert imported[k] == Unread; }
    }
  }

  lemma SameCell(t: Task, size: int, k: int)
    requires WholeBlock(t, size) && 0 <= t.lba && t.lba + t.sectors <= size && 0 <= k < size
    ensures InTask(t, k) <==> k / SECTORS_AT_ONCE == t.lba / SECTORS_AT_ONCE
  {
  }

  lemma ReportSummarises(map_: seq<int>, c: Counters, journal: seq<SectorStatus>, imported: seq<SectorStatus>,
                         missed: Counters, t: Task, status: SectorStatus)
    requires Summarises(map_, c, journal, imported, missed) && WholeBlock(t, |journal|)
    requires 0 <= t.lba && t.lba + t.sectors <= |journal|
    requires status != Unread && forall k | InTask(t, k) :: journal[k] == Unread
    ensures var next := Apply(map_, c, Report(t.lba, t.sectors, IsError(status)));
            Summarises(next.0, next.1, Mark(journal, t, status), imported, missed)
  {
    hide MapShows, Grown;
    var r, journal' := Report(t.lba, t.sectors, IsError(status)), Mark(journal, t, status);
    ReportMap(map_, journal, imported, t, status);
    forall class_ ensures Of(Recount(c, r), class_) == CountClass(journal', class_) - Of(missed, class_) {
      MarkCounts(journal, t, status, class_);
      assert Of(c, class_) == CountClass(journal, class_) - Of(missed, class_);
    }
  }

  // ----- whole runs -----

  /** After the reports of the blocks a run has done, map and counters are the journal's. */
  lemma {:induction false} BlocksSummarised(c: Config, s: Copy, os: seq<Outcome>, map_: seq<int>, counts: Counters,
                                            imported: seq<SectorStatus>, missed: Counters)
    requires Neat(c, s) && FullWrites(os) && Summarises(map_, counts, s.journal, imported, missed)
    ensures var r := Run(c, s, os); var shown := Follow(map_, counts, ReportsOf(r.tasks, os));
            Summarises(shown.0, shown.1, r.final.journal, imported, missed)
    decreases |os|
  {
    hide Choose, UseResults, Summarises, Apply;
    if s.num < s.den && os != [] {
      HasZones(c, s);
      var r := Step(c, s, os[0]);
      if r.Done? {
        ProcessOk(c, s, os[0]);
        StepNeat(c, s, os[0]);
        ReportSummarises(map_, counts, s.journal, imported, missed, r.task, StatusOf(os[0], r.task.sectors));
        var next := Apply(map_, counts, Report(r.task.lba, r.task.sectors, BlockFailed(os[0])));
        ReportsCons(r.task, if r.abort then [] else Run(c, r.next, os[1..]).tasks, os);
        if r.abort {
          assert ReportsOf([], os[1..]) == [];
        } else {
          BlocksSummarised(c, r.next, os[1..], next.0, next.1, imported, missed);
        }
      }
    }
  }

  /** All blocks of a run lie on the disk and hold something. */
  ghost predicate OnDisk(tasks: seq<Task>, size: int) {
    forall i | 0 <= i < |tasks| :: 0 <= tasks[i].lba && 0 < tasks[i].sectors && tasks[i].lba + tasks[i].sectors <= size
  }

  lemma PrependOnDisk(t: Task, tasks: seq<Task>, size: int)
    requires OnDisk(tasks, size) && 0 <= t.lba && 0 < t.sectors && t.lba + t.sectors <= size
    ensures OnDisk([t] + tasks, size)
  {
  }

  lemma {:induction false} RunOnDisk(c: Config, s: Copy, os: seq<Outcome>)
    requires Valid(c, s)
    ensures OnDisk(Run(c, s, os).tasks, |s.journal|)
    decreases |os|
  {
    hide Choose, UseResults, OnDisk;
    NoneOnDisk(|s.journal|);
    if s.num < s.den && os != [] {
      HasZones(c, s);
      var r := Step(c, s, os[0]);
      if r.Done? {
        ProcessOk(c, s, os[0]);
        PrependOnDisk(r.task, [], |s.journal|);
        assert [r.task] + [] == [r.task];
        if !r.abort {
          RunOnDisk(c, r.next, os[1..]);
          PrependOnDisk(r.task, Run(c, r.next, os[1..]).tasks, |s.journal|);
        }
      }
    }
  }

  lemma NoneOnDisk(size: int)
    ensures OnDisk([], size)
  {
  }

  /** A run that gives up was not done, and if it gave up at once it has changed nothing. */
  lemma {:induction false} GaveUpUndone(c: Config, s: Copy, os: seq<Outcome>)
    requires Valid(c, s) && Run(c, s, os).ending == GaveUp
    ensures |s.journal| > 0 && (Run(c, s, os).tasks == [] ==> Run(c, s, os).final.journal == s.journal)
    decreases |os|
  {
    hide Step;
    HasZones(c, s);
    assert s.sched.zones[0].end <= |s.journal|;
    if Step(c, s, os[0]).Refused? { RefusedKeeps(c, s, os[0]); }
  }

  /** Handling the latest report a second time leaves the map alone and counts its block twice. */
  lemma RepeatMiscounts(map_: seq<int>, c: Counters, r: Report, journal: seq<SectorStatus>, missed: Counters)
    requires 0 <= r.lba / SECTORS_AT_ONCE < |map_| && r.sectors > 0
    ensures var once := Apply(map_, c, r); var twice := Apply(once.0, once.1, r);
            && twice == (once.0, Recount(once.1, r))
            && (CountsTrue(once.1, journal, missed) ==> !CountsTrue(twice.1, journal, missed))
  {
    hide CountClass;
    var once := Apply(map_, c, r);
    assert Shown(once.0, r) == once.0;
    if CountsTrue(once.1, journal, missed) {
      assert Of(once.1, Unseen) == CountClass(journal, Unseen) - Of(missed, Unseen);
      assert Of(Recount(once.1, r), Unseen) != CountClass(journal, Unseen) - Of(missed, Unseen);
    }
  }

  /** The report of a procedure that has done nothing marks the first block as read. */
  lemma NoReportShows(map_: seq<int>, c: Counters, journal: seq<SectorStatus>, imported: seq<SectorStatus>,
                      missed: Counters)
    requires Summarises(map_, c, journal, imported, missed) && |journal| > 0
    ensures |map_| > 0
    ensures var next := Apply(map_, c, NO_REPORT);
            Summarises(next.0, next.1, journal, imported, missed) <==> ClassOfCode(map_[0]) == Good
  {
    hide CountsTrue, Needed;
    assert 0 / SECTORS_AT_ONCE < |map_| && ClassOfCode(map_[0 / SECTORS_AT_ONCE]) == ShownAs(imported[0], journal[0]);
    var next := Apply(map_, c, NO_REPORT);
    assert next.1 == c && next.0 == map_[0 := 1];
    if MapShows(next.0, journal, imported) {
      assert ClassOfCode(next.0[0 / SECTORS_AT_ONCE]) == ShownAs(imported[0], journal[0]);
    }
    if ClassOfCode(map_[0]) == Good {
      forall k | 0 <= k < |journal|
        ensures 0 <= k / SECTORS_AT_ONCE < |next.0|
        ensures ClassOfCode(next.0[k / SECTORS_AT_ONCE]) == ShownAs(imported[k], journal[k])
      {
        assert ClassOfCode(map_[k / SECTORS_AT_ONCE]) == ShownAs(imported[k], journal[k]);
      }
    }
  }

  /** The latest report, handled once more after a refused block. */
  lemma GaveUpMiscounts(c: Config, s: Copy, os: seq<Outcome>, map_: seq<int>, counts: Counters,
                        imported: seq<SectorStatus>, missed: Counters)
    requires Neat(c, s) && FullWrites(os) && Summarises(map_, counts, s.journal, imported, missed)
    requires Run(c, s, os).ending == GaveUp && Run(c, s, os).tasks != []
    ensures var r := Run(c, s, os);
            var done := Follow(map_, counts, ReportsOf(r.tasks, os));
            var shown := Follow(map_, counts, Handed(r, os, NO_REPORT));
            && shown == (done.0, Recount(done.1, Latest(r.tasks, os, NO_REPORT)))
            && !CountsTrue(shown.1, r.final.journal, missed)
  {
    hide Run, Apply, MapShows, CountsTrue, Neat, Recount;
    NeatIsValid(c, s);
    var r := Run(c, s, os);
    var reports, n := ReportsOf(r.tasks, os), |r.tasks| - 1;
    var front, last := reports[..n], reports[n];
    BlocksSummarised(c, s, os, map_, counts, imported, missed);
    RunOnDisk(c, s, os);
    FollowLength(map_, counts, front);
    FollowAppend(map_, counts, front, last);
    assert front + [last] == reports;
    FollowAppend(map_, counts, reports, last);
    CellExists(r.tasks[n], |s.journal|);
    assert |map_| == Needed(SECTORS_AT_ONCE, |s.journal|) by { ShowsLength(map_, s.journal, imported); }
    var before := Follow(map_, counts, front);
    RepeatMiscounts(before.0, before.1, last, r.final.journal, missed);
  }

  lemma NeatIsValid(c: Config, s: Copy)
    requires Neat(c, s)
    ensures Valid(c, s)
  {
  }

  lemma ShowsLength(map_: seq<int>, journal: seq<SectorStatus>, imported: seq<SectorStatus>)
    requires MapShows(map_, journal, imported)
    ensures |map_| == Needed(SECTORS_AT_ONCE, |journal|)
  {
  }

  lemma CellExists(t: Task, size: int)
    requires 0 <= t.lba && 0 < t.sectors && t.lba + t.sectors <= size
    ensures 0 <= t.lba / SECTORS_AT_ONCE < Needed(SECTORS_AT_ONCE, size)
  {
  }

  lemma {:induction false} FollowLength(map_: seq<int>, c: Counters, reports: seq<Report>)
    ensures |Follow(map_, c, reports).0| == |map_|
    decreases |reports|
  {
    if reports != [] {
      var next := Apply(map_, c, reports[0]);
      FollowLength(next.0, next.1, reports[1..]);
    }
  }

  /** The reports the loop hands over keep map and counters in step with the journal if and only if
      the run does not end with a refused block, or nothing was done and the first block already
      shows as read. */
  lemma RunSummarised(c: Config, s: Copy, os: seq<Outcome>, map_: seq<int>, counts: Counters,
                      imported: seq<SectorStatus>, missed: Counters)
    requires Neat(c, s) && FullWrites(os) && Summarises(map_, counts, s.journal, imported, missed)
    ensures var r := Run(c, s, os); var shown := Follow(map_, counts, Handed(r, os, NO_REPORT));
            Summarises(shown.0, shown.1, r.final.journal, imported, missed) <==>
            r.ending != GaveUp || (r.tasks == [] && |map_| > 0 && ClassOfCode(map_[0]) == Good)
  {
    hide Run, Apply, MapShows, CountsTrue, Grown, Neat;
    NeatIsValid(c, s);
    var r := Run(c, s, os);
    BlocksSummarised(c, s, os, map_, counts, imported, missed);
    if r.ending != GaveUp {
      assert ReportsOf(r.tasks, os) + [] == ReportsOf(r.tasks, os);
    } else if r.tasks == [] {
      GaveUpUndone(c, s, os);
      assert Handed(r, os, NO_REPORT) == [] + [NO_REPORT];
      FollowAppend(map_, counts, [], NO_REPORT);
      NoReportShows(map_, counts, s.journal, imported, missed);
    } else {
      GaveUpMiscounts(c, s, os, map_, counts, imported, missed);
    }
  }

  /** The display tells the truth about a journal: every sector and all three counters, but for the
      last block the import took for empty. */
  ghost predicate DisplayTrue(map_: seq<int>, c: Counters, journal: seq<SectorStatus>, missed: Counters) {
    MapTrue(map_, journal) && CountsTrue(c, journal, missed)
  }

  lemma NoReportTrue(map_: seq<int>, journal: seq<SectorStatus>, imported: seq<SectorStatus>)
    requires MapShows(map_, journal, imported) && Grown(journal, imported) && |journal| > 0
    ensures |map_| > 0
    ensures MapTrue(map_[0 := 1], journal) ==> NoSectorError(imported) && ClassOfCode(map_[0]) == Good
  {
    assert 0 / SECTORS_AT_ONCE < |map_| && ClassOfCode(map_[0 / SECTORS_AT_ONCE]) == ShownAs(imported[0], journal[0]);
    var next := map_[0 := 1];
    if MapTrue(next, journal) {
      assert ClassOfCode(next[0 / SECTORS_AT_ONCE]) == ClassOf(journal[0]);
      forall k | 0 <= k < |imported| ensures imported[k] != SectorReadError {
        assert ClassOfCode(next[k / SECTORS_AT_ONCE]) == ClassOf(journal[k]);
        assert ClassOfCode(map_[k / SECTORS_AT_ONCE]) == ShownAs(imported[k], journal[k]);
      }
    }
  }

  /** When the display is true at the end of a run. */
  lemma DisplayExactly(c: Config, s: Copy, os: seq<Outcome>, map_: seq<int>, counts: Counters,
                       imported: seq<SectorStatus>, missed: Counters)
    requires Neat(c, s) && FullWrites(os) && Summarises(map_, counts, s.journal, imported, missed)
    ensures Valid(c, s)
    ensures var r := Run(c, s, os); var shown := Follow(map_, counts, Handed(r, os, NO_REPORT));
            DisplayTrue(shown.0, shown.1, r.final.journal, missed) <==>
            && NoSectorError(imported)
            && (r.ending != GaveUp || (r.tasks == [] && |map_| > 0 && ClassOfCode(map_[0]) == Good))
  {
    hide Run, MapShows, CountsTrue, Grown, Neat, MapTrue, NoSectorError, Follow, Handed;
    NeatIsValid(c, s);
    RunSummarised(c, s, os, map_, counts, imported, missed);
    var r := Run(c, s, os);
    var shown := Follow(map_, counts, Handed(r, os, NO_REPORT));
    if Summarises(shown.0, shown.1, r.final.journal, imported, missed) {
      MapTrueExactly(shown.0, r.final.journal, imported);
    } else if r.tasks == [] {
      GaveUpUndone(c, s, os);
      NothingHanded(r, os, map_, counts);
      NoReportTrue(map_, s.journal, imported);
    } else {
      GaveUpMiscounts(c, s, os, map_, counts, imported, missed);
    }
  }

  lemma NothingHanded(r: RunResult, os: seq<Outcome>, map_: seq<int>, counts: Counters)
    requires r.tasks == [] && r.ending == GaveUp
    ensures |map_| > 0 ==> Follow(map_, counts, Handed(r, os, NO_REPORT)).0 == map_[0 := 1]
  {
    assert Handed(r, os, NO_REPORT) == [NO_REPORT] && [NO_REPORT][1..] == [];
  }

  lemma FirstCell(journal: seq<SectorStatus>, map_: seq<int>)
    requires |map_| == Needed(SECTORS_AT_ONCE, |journal|) && Sampled(map_, journal)
    ensures |map_| > 0 <==> |journal| > 0
    ensures |journal| > 0 ==> (ClassOfCode(map_[0]) == Good <==> journal[0] == ReadOk || journal[0] == SectorReadError)
  {
    if |map_| > 0 { assert map_[0] == CodeOf(journal[SECTORS_AT_ONCE * 0]); }
  }

  /** From opening to the end: the display of a copy resumed from a block-wise journal is true at the
      end if and only if that journal had no single-sector error and the copy has not ended with a
      refused block, or with nothing but a refused block and its first block already read. */
  lemma ImportThenRun(c: Config, s: Copy, os: seq<Outcome>, map_: seq<int>)
    requires ConfigOk(c) && |s.journal| == |s.dst| == |c.source| && AlignedEnd(c, |s.journal|)
    requires Uniform(s.journal) && FullWrites(os) && |map_| == Needed(SECTORS_AT_ONCE, |s.journal|)
    requires Sampled(map_, s.journal)
    ensures Valid(c, Reopen(s))
    ensures var r := Run(c, Reopen(s), os);
            var shown := Follow(map_, Imported(s.journal, |map_|), Handed(r, os, NO_REPORT));
            DisplayTrue(shown.0, shown.1, r.final.journal, AllMissed(s.journal)) <==>
            && NoSectorError(s.journal)
            && (r.ending != GaveUp || (r.tasks == [] && |s.journal| > 0 && s.journal[0] == ReadOk))
  {
    ReopenNeat(c, s);
    ImportSummarises(s.journal, map_);
    FirstCell(s.journal, map_);
    hide Run, Follow, Imported, Missed, Needed, MapShows, MapTrue, CountsTrue, Neat, Sampled;
    DisplayExactly(c, Reopen(s), os, map_, Imported(s.journal, |map_|), s.journal, AllMissed(s.journal));
  }

  lemma ReportsCons(t: Task, tasks: seq<Task>, os: seq<Outcome>)
    requires os != [] && |tasks| < |os|
    ensures var all := ReportsOf([t] + tasks, os);
            && |all| > 0 && all[0] == Report(t.lba, t.sectors, BlockFailed(os[0]))
            && all[1..] == ReportsOf(tasks, os[1..])
  {
  }
}
