/** The copy procedure over its files: opening, one block, and the loop. */
module CopyProcedure {
  import opened CopyTypes
  import opened ReadStrategies
  import opened ZoneCover
  import opened JournalParser
  import opened CopyRun
  import opened CopyBounds
  import opened CopyHistory
  import opened CopyResume
  import opened ZoneList

  const JOURNAL_CHUNK := 1024 * 1024

  /** The part of a block report the procedure fills in. */
  datatype Report = Report(lba: int, sectors: int, failed: bool)

  function ReportsOf(tasks: seq<Task>, os: seq<Outcome>): seq<Report>
    requires |tasks| <= |os|
  {
    seq(|tasks|, i requires 0 <= i < |tasks| => Report(tasks[i].lba, tasks[i].sectors, BlockFailed(os[i])))
  }

  /** What the callback of the loop is given: each block's report, and after a refused block the
      report before it once more; `before` is the report the loop began with. */
  function Handed(r: RunResult, os: seq<Outcome>, before: Report): seq<Report>
    requires |r.tasks| <= |os|
  {
    ReportsOf(r.tasks, os) + if r.ending == GaveUp then [Latest(r.tasks, os, before)] else []
  }

  function Latest(tasks: seq<Task>, os: seq<Outcome>, before: Report): Report
    requires |tasks| <= |os|
  {
    if tasks == [] then before else ReportsOf(tasks, os)[|tasks| - 1]
  }

  /** The report of a procedure that has not done anything yet. */
  const NO_REPORT := Report(0, 0, false)

  /** The journal file read through a 1 MiB buffer, byte by byte. */
  class JournalReader {
    const file: array<SectorStatus>
    const chunk: array<SectorStatus>
    var pos: int           // the file offset
    ghost var base: int    // where in the file the buffer starts

    constructor (file: array<SectorStatus>)
      ensures this.file == file && fresh(chunk) && Ready(0)
    {
      this.file := file;
      chunk := new SectorStatus[JOURNAL_CHUNK](_ => Unread);
      pos, base := 0, 0;
    }

    /** All bytes before `i` have been asked for. */
    ghost predicate Ready(i: int)
      reads this, file, chunk
    {
      && chunk != file && chunk.Length == JOURNAL_CHUNK && 0 <= i <= file.Length
      && (i == 0 ==> pos == 0) && base % JOURNAL_CHUNK == 0
      && (i > 0 ==>
            && 0 <= base < i <= base + JOURNAL_CHUNK
            && pos == (if base + JOURNAL_CHUNK < file.Length then base + JOURNAL_CHUNK else file.Length)
            && forall q | 0 <= q < pos - base :: chunk[q] == file[base + q])
    }

    /** Read the next piece of the file. */
    method Refill(i: int)
      requires Ready(i) && i < file.Length && i % JOURNAL_CHUNK == 0
      modifies this, chunk
      ensures Ready(i + 1) && base == i
    {
      ChunkStarts(base, i);
      assert pos == i;
      var chunklen := if file.Length - i < JOURNAL_CHUNK then file.Length - i else JOURNAL_CHUNK;
      forall q | 0 <= q < chunklen { chunk[q] := file[pos + q]; }
      pos := pos + chunklen;
      base := i;
    }

    /** The byte at `i`; it fails when `i` starts a piece whose read fails. */
    method Byte(i: int, faults: int -> bool) returns (ok: bool, status: SectorStatus)
      requires Ready(i) && i < file.Length
      modifies this, chunk
      ensures ok <==> !(i % JOURNAL_CHUNK == 0 && faults(i / JOURNAL_CHUNK))
      ensures ok ==> Ready(i + 1) && status == file[i]
    {
      if i % JOURNAL_CHUNK == 0 {
        if faults(i / JOURNAL_CHUNK) {
          return false, Unread;
        }
        Refill(i);
      }
      InChunk(base, i);
      return true, chunk[i % JOURNAL_CHUNK];
    }
  }

  lemma ChunkStarts(base: int, i: int)
    requires base % JOURNAL_CHUNK == 0 && i % JOURNAL_CHUNK == 0
    ensures base < i <= base + JOURNAL_CHUNK ==> i == base + JOURNAL_CHUNK
  {
  }

  lemma InChunk(base: int, i: int)
    requires base % JOURNAL_CHUNK == 0
    ensures base <= i < base + JOURNAL_CHUNK ==> i % JOURNAL_CHUNK == i - base
    ensures base < i <= base + JOURNAL_CHUNK && i % JOURNAL_CHUNK != 0 ==> i < base + JOURNAL_CHUNK
  {
  }

  class Procedure {
    const config: Config
    const useJournal: bool
    const journal: array<SectorStatus>
    const dst: array<Content>
    const sched: Scheduler
    var dstLength: int     // the size of the destination file or device, in sectors
    var dstEnd: int        // dst_file_end_lba
    var num: int
    var den: int
    var report: Report
    ghost var record: seq<SectorStatus>  // the journal, also when none is kept on file

    ghost predicate Valid()
      reads this, sched, sched.nodes, journal, dst
    {
      && sched.Linked() && sched.config == config
      && (useJournal ==> journal[..] == record)
      && CopyRun.Valid(config, Abs())
    }

    ghost function Abs(): Copy
      reads this, sched, sched.nodes, dst
    {
      Copy(sched.Abs(), record, dst[..], dstLength, dstEnd, num, den)
    }

    constructor (config: Config, useJournal: bool, journal: array<SectorStatus>, dst: array<Content>, dstLength: nat)
      ensures this.dstLength == dstLength
      ensures this.config == config && this.useJournal == useJournal && this.journal == journal && this.dst == dst
      ensures fresh(sched) && sched.footprint == {} && sched.Linked() && sched.config == config
      ensures sched.Abs() == Sched([], None, false, 0) && num == 0 && report == NO_REPORT
    {
      this.config, this.useJournal, this.journal, this.dst := config, useJournal, journal, dst;
      this.dstLength, dstEnd := dstLength, 0;
      sched := new Scheduler(config);
      num, den := 0, 0;
      report := Report(0, 0, false);
      record := [];
    }

    // ----- opening -----

    /** What the parser has after the bytes scanned so far. */
    ghost predicate Scanned(p: Scan, currentZone: ZoneNode?)
      reads this, sched, sched.nodes, currentZone
    {
      && sched.Linked() && sched.Abs() == Sched(p.zones, None, false, 0) && den == p.den
      && (currentZone == null <==> p.open == None)
      && (currentZone != null ==>
            currentZone.Value() == p.open.value && currentZone.next == null && currentZone !in sched.nodes)
    }

    /** Finish the zone being scanned. */
    method CloseCurrent(currentZone: ZoneNode, end: int, endBad: bool, ghost p: Scan)
      requires Scanned(p, currentZone) && !p.open.value.endBad
      modifies this`den, sched, sched.footprint, currentZone
      ensures sched.footprint == old(sched.footprint) + {currentZone}
      ensures Scanned(CloseZone(p, end, endBad), null)
    {
      currentZone.endLba := end;
      if endBad {
        currentZone.endBad := true;
      }
      assert sched.Abs() == Sched(p.zones, None, false, 0);
      den := den + currentZone.endLba - currentZone.beginLba;
      sched.AppendZone(currentZone);
    }

    /** The body of the parsing loop. */
    method TakeByte(i: int, status: SectorStatus, prev: SectorStatus, currentZone: ZoneNode?, ghost p: Scan)
      returns (next: ZoneNode?)
      requires Scanned(p, currentZone) && (currentZone != null ==> !p.open.value.endBad)
      modifies this`den, sched, sched.footprint, currentZone
      ensures Scanned(ScanByte(p, i, status, prev), next)
      ensures next != null ==> next == currentZone || fresh(next)
      ensures sched.footprint <= old(sched.footprint) + if currentZone == null then {} else {currentZone}
    {
      next := currentZone;
      if status == Unread {
        if currentZone == null {
          next := new ZoneNode(i, 0, i > 0 && IsError(prev), false, null);
        }
      } else if currentZone != null {
        CloseCurrent(currentZone, i, IsError(status), p);
        next := null;
      }
    }

    /** The parser stands before byte `i` of the journal. */
    ghost predicate Parsing(reader: JournalReader, i: int, currentZone: ZoneNode?, prev: SectorStatus)
      reads this, sched, sched.nodes, currentZone, journal, reader, reader.chunk
    {
      && reader.file == journal && reader.Ready(i)
      && prev == Previous(journal[..], i)
      && Scanned(ScanTo(journal[..], i), currentZone)
      && (currentZone != null ==> !ScanTo(journal[..], i).open.value.endBad)
    }

    lemma OpenEndGood(file: seq<SectorStatus>, k: nat)
      requires k <= |file|
      ensures ScanTo(file, k).open.Some? ==> !ScanTo(file, k).open.value.endBad
    {
      if k > 0 { OpenEndGood(file, k - 1); }
    }

    method ScanNext(reader: JournalReader, i: int, faults: int -> bool, prev: SectorStatus, currentZone: ZoneNode?)
      returns (ok: bool, next: ZoneNode?, status: SectorStatus)
      requires Parsing(reader, i, currentZone, prev) && i < journal.Length
      modifies this`den, sched, sched.footprint, currentZone, reader, reader.chunk
      ensures ok <==> !(i % JOURNAL_CHUNK == 0 && faults(i / JOURNAL_CHUNK))
      ensures ok ==> Parsing(reader, i + 1, next, status)
      ensures next != null ==> next == currentZone || fresh(next)
      ensures sched.footprint <= old(sched.footprint) + if currentZone == null then {} else {currentZone}
    {
      ghost var p := ScanTo(journal[..], i);
      next := null;
      ok, status := reader.Byte(i, faults);
      if ok {
        next := TakeByte(i, status, prev, currentZone, p);
        OpenEndGood(journal[..], i + 1);
      }
    }

    /** The parsing loop. */
    method ScanAll(reader: JournalReader, faults: int -> bool) returns (ok: bool, currentZone: ZoneNode?)
      requires Parsing(reader, 0, null, Unread) && sched.footprint == {}
      modifies this`den, sched, reader, reader.chunk
      ensures ok <==> forall q | 0 <= q < journal.Length && q % JOURNAL_CHUNK == 0 :: !faults(q / JOURNAL_CHUNK)
      ensures ok ==> Scanned(ScanTo(journal[..], journal.Length), currentZone)
      ensures ok && currentZone != null ==> fresh(currentZone) && !ScanTo(journal[..], journal.Length).open.value.endBad
      ensures fresh(sched.footprint)
    {
      var prevSectorStatus := Unread;
      ok, currentZone := true, null;
      var i := 0;
      while i < journal.Length
        invariant 0 <= i <= journal.Length && Parsing(reader, i, currentZone, prevSectorStatus)
        invariant ok && (currentZone != null ==> fresh(currentZone))
        invariant forall q | 0 <= q < i && q % JOURNAL_CHUNK == 0 :: !faults(q / JOURNAL_CHUNK)
        invariant fresh(sched.footprint)
      {
        ok, currentZone, prevSectorStatus := ScanNext(reader, i, faults, prevSectorStatus, currentZone);
        if !ok {
          return;
        }
        i := i + 1;
      }
    }

    /** The chunked scan of an existing journal; `faults` says which chunk reads fail. */
    method ParseJournal(faults: int -> bool) returns (r: int)
      requires sched.Linked() && sched.Abs() == Sched([], None, false, 0) && sched.footprint == {} && den == 0
      modifies this`den, sched
      ensures r == 0 <==> forall i | 0 <= i < journal.Length && i % 1048576 == 0 :: !faults(i / 1048576)
      ensures r == 0 ==>
                sched.Linked() && sched.Abs() == ResumedSched(journal[..]) && den == Parse(journal[..]).den
      ensures fresh(sched.footprint)
    {
      var reader := new JournalReader(journal);
      var ok, currentZone := ScanAll(reader, faults);
      if !ok {
        return 1;
      }
      if currentZone != null {
        CloseCurrent(currentZone, journal.Length, false, ScanTo(journal[..], journal.Length));
      }
      r := 0;
    }

    /** A journal for a disk nothing has been read of, written in 1 MiB pieces. */
    method FillJournal()
      modifies journal
      ensures journal[..] == Blank(journal.Length)
    {
      var i := 0;
      while i < journal.Length
        invariant 0 <= i <= journal.Length
        invariant forall k | 0 <= k < i :: journal[k] == Unread
      {
        var blocksize := journal.Length - i;
        if blocksize > JOURNAL_CHUNK {
          blocksize := JOURNAL_CHUNK;
        }
        forall k | i <= k < i + blocksize { journal[k] := Unread; }
        i := i + blocksize;
      }
    }

    /** Start with the whole disk unread. */
    method StartWhole()
      requires ConfigOk(config) && dst.Length == |config.source| > 0
      requires sched.Linked() && sched.config == config && sched.footprint == {}
               && sched.Abs() == Sched([], None, false, 0) && num == 0
      modifies this`den, this`record, sched
      ensures sched.Linked() && Abs() == FreshCopy(dst[..], dstLength).(dstEnd := dstEnd)
      ensures fresh(sched.footprint)
    {
      hide Blank, Chained, Values, NodeAt;
      var endLba := |config.source|;
      var whole := new ZoneNode(0, endLba, false, false, null);
      assert whole !in sched.nodes;
      sched.AppendZone(whole);
      assert sched.Zones() == [Zone(0, endLba, false, false)];
      den := endLba;
      record := Blank(endLba);
    }

    /** Forget the zones and take them from the journal. */
    method StartFromJournal(faults: int -> bool) returns (r: int)
      requires ConfigOk(config) && dst.Length == |config.source| == journal.Length
      requires sched.config == config && !sched.reverse && sched.stage == 0 && num == 0 && dstEnd == dstLength
      modifies this`den, this`record, sched
      ensures r == 0 <==> forall i | 0 <= i < journal.Length && i % JOURNAL_CHUNK == 0 :: !faults(i / JOURNAL_CHUNK)
      ensures r == 0 ==> sched.Linked() && CopyRun.Valid(config, Abs()) && record == journal[..]
      ensures r == 0 ==> Abs() == Reopen(Left(journal[..], dst[..], dstLength))
      ensures fresh(sched.footprint)
    {
      sched.Reset();
      den := 0;
      r := ParseJournal(faults);
      if r == 0 {
        record := journal[..];
        ReopenValid(config, Left(journal[..], dst[..], dstLength));
      }
    }

    /** Take up an existing journal, or begin a new one. */
    method OpenJournal(journalExists: bool, faults: int -> bool) returns (r: int)
      requires ConfigOk(config) && dst.Length == |config.source| > 0 && dstEnd == dstLength
      requires sched.Linked() && sched.config == config && Abs() == FreshCopy(dst[..], dstLength)
      requires useJournal && !journalExists ==> journal.Length == |config.source|
      modifies this`den, this`record, sched, journal
      ensures r == 0 <==>
                (useJournal && journalExists ==>
                   && journal.Length == |config.source|
                   && forall i | 0 <= i < journal.Length && i % JOURNAL_CHUNK == 0 :: !faults(i / JOURNAL_CHUNK))
      ensures r == 0 ==> Valid()
      ensures r == 0 && useJournal && journalExists ==>
                Abs() == Reopen(Left(old(journal[..]), dst[..], dstLength))
      ensures r == 0 && !(useJournal && journalExists) ==> Abs() == FreshCopy(dst[..], dstLength)
      ensures sched.footprint == old(sched.footprint) || fresh(sched.footprint)
      ensures !useJournal ==> journal[..] == old(journal[..])
    {
      hide Reopen, Left, CopyRun.Valid, Blank;
      FreshCopyValid(config, dst[..], dstLength);
      r := 0;
      if useJournal {
        if journalExists {
          if journal.Length != |config.source| {
            return 1;
          }
          r := StartFromJournal(faults);
        } else {
          FillJournal();
        }
      }
    }

    /** `Open`: measure the destination; start with the whole disk, or with what an existing
        journal leaves. */
    method Open(journalExists: bool, faults: int -> bool) returns (r: int)
      requires ConfigOk(config) && dst.Length == |config.source| > 0
      requires sched.Linked() && sched.config == config && sched.footprint == {}
               && sched.Abs() == Sched([], None, false, 0) && num == 0
      requires useJournal && !journalExists ==> journal.Length == |config.source|
      modifies this`dstEnd, this`den, this`record, sched, journal
      ensures r == 0 <==>
                (useJournal && journalExists ==>
                   && journal.Length == |config.source|
                   && forall i | 0 <= i < journal.Length && i % 1048576 == 0 :: !faults(i / 1048576))
      ensures r == 0 ==> Valid()
      ensures r == 0 && useJournal && journalExists ==>
                Abs() == Reopen(Left(old(journal[..]), dst[..], dstLength))
      ensures r == 0 && !(useJournal && journalExists) ==> Abs() == FreshCopy(dst[..], dstLength)
      ensures fresh(sched.footprint)
      ensures !useJournal ==> journal[..] == old(journal[..])
    {
      dstEnd := dstLength;
      StartWhole();
      r := OpenJournal(journalExists, faults);
    }

    // ----- one block -----

    /** Write the first `w` sectors of the block read from the source. */
    method WriteBlock(lba: int, w: int)
      requires 0 <= lba && 0 <= w && lba + w <= dst.Length == |config.source|
      modifies this`dstLength, dst
      ensures forall t: Task | t.lba == lba :: dst[..] == WriteDst(old(dst[..]), config.source, t, w)
      ensures dstLength == Extended(old(dstLength), lba, w)
    {
      forall k | lba <= k < lba + w { dst[k] := config.source[k]; }
      if w > 0 && lba + w > dstLength {
        dstLength := lba + w;
      }
    }

    /** Write the block's status to the journal. */
    method WriteJournal(lba: int, sectors: int, status: SectorStatus)
      requires 0 <= lba && 0 <= sectors && lba + sectors <= journal.Length
      modifies journal
      ensures journal[..] == Mark(old(journal[..]), Task(lba, sectors), status)
    {
      forall k | lba <= k < lba + sectors { journal[k] := status; }
    }

    /** Write out what was read and fill in the report. */
    method WriteOut(lba: int, sectors: int, o: Outcome) returns (errorFlag: bool)
      requires 0 <= lba && 0 < sectors && lba + sectors <= dst.Length == |config.source|
      modifies this`report, this`dstLength, dst
      ensures errorFlag == o.ReadFailed?
      ensures dstLength == Extended(old(dstLength), lba, Accepted(o, sectors))
      ensures dst[..] == WriteDst(old(dst[..]), config.source, Task(lba, sectors), Accepted(o, sectors))
      ensures report == Report(lba, sectors, BlockFailed(o))
    {
      report := Report(lba, sectors, false);
      errorFlag := false;
      if o.ReadFailed? {
        errorFlag := true;
        report := report.(failed := true);
      }
      if !errorFlag {
        WriteBlock(lba, Accepted(o, sectors));
        if o.WrittenShort? {
          report := report.(failed := true);
        }
      }
    }

    /** Journal the block, on file when a journal is kept. */
    method RecordBlock(lba: int, sectors: int, errorFlag: bool)
      requires 0 <= lba && 0 < sectors && lba + sectors <= |record|
      requires useJournal ==> journal[..] == record
      modifies this`record, journal
      ensures var status := if errorFlag then if sectors == 1 then SectorReadError else BlockReadError else ReadOk;
              record == Mark(old(record), Task(lba, sectors), status)
      ensures useJournal ==> journal[..] == record
      ensures !useJournal ==> journal[..] == old(journal[..])
    {
      var sectorStatus := if errorFlag then if sectors == 1 then SectorReadError else BlockReadError else ReadOk;
      record := Mark(record, Task(lba, sectors), sectorStatus);
      if useJournal {
        WriteJournal(lba, sectors, sectorStatus);
      }
    }

    /** The second half of `Perform`: the block is chosen; read it, write it out, record it. */
    method ProcessBlock(lba: int, sectors: int, o: Outcome) returns (ret: int)
      requires sched.Linked() && sched.config == config && sched.currentZone != null && Near(sched.Abs())
      requires useJournal ==> journal[..] == record
      requires Task(lba, sectors) == Proceed(sched.Abs()) && 0 <= lba && 0 < sectors && lba + sectors <= |record|
      requires |record| == dst.Length == |config.source|
      modifies this`report, this`record, this`dstLength, this`num, sched, sched.footprint, journal, dst
      ensures sched.Linked() && sched.footprint == old(sched.footprint)
      ensures useJournal ==> journal[..] == record
      ensures !useJournal ==> journal[..] == old(journal[..])
      ensures sched.Abs() == UseResults(config, old(sched.Abs()), sectors, BlockFailed(o))
      ensures record == Mark(old(record), Task(lba, sectors), StatusOf(o, sectors))
      ensures dst[..] == WriteDst(old(dst[..]), config.source, Task(lba, sectors), Accepted(o, sectors))
      ensures dstLength == Extended(old(dstLength), lba, Accepted(o, sectors))
      ensures num == old(num) + sectors && report == Report(lba, sectors, BlockFailed(o))
      ensures ret != 0 <==> config.strategy == Plain && BlockFailed(o)
    {
      hide UseResults, Near;
      var errorFlag := WriteOut(lba, sectors, o);
      RecordBlock(lba, sectors, errorFlag);
      assert sched.Abs() == old(sched.Abs());
      var r := sched.UseResult(lba, sectors, report.failed);
      ret := if r != 0 then 1 else 0;
      num := num + sectors;
    }

    /** `Perform`, one block: exactly the step of the model. */
    method Perform(o: Outcome) returns (ret: int)
      requires Valid() && num < den
      modifies this`report, this`record, this`dstLength, this`num, sched, sched.footprint, journal, dst
      ensures match CopyRun.Step(config, old(Abs()), o)
              case Refused(s) => ret != 0 && Abs() == s && report == old(report)
              case Done(s, t, abort) =>
                Valid() && Abs() == s && (ret != 0 <==> abort) && report == Report(t.lba, t.sectors, BlockFailed(o))
      ensures sched.Linked() && fresh(sched.footprint - old(sched.footprint))
      ensures !useJournal ==> journal[..] == old(journal[..])
    {
      hide Step, Process, Tracks, UseResults, Mark, WriteDst, Extended;
      HasZones(config, Abs());
      ghost var s := Abs();
      StepCases(config, s, o);
      hide CopyRun.Valid, Choose;
      var r, lba, sectors := sched.GetTask();
      if r != 0 {
        return r;
      }
      if dstEnd != 0 && lba + sectors > dstEnd {
        return 1;
      }
      ghost var s1 := Abs();
      ret := ProcessBlock(lba, sectors, o);
      ProcessIs(config, s1, o, Abs());
    }

    // ----- the loop -----

    /** `dc_procedure_perform_loop`: block after block until the progress is complete, the loop
        is interrupted (here: the given outcomes run out) or a block returns nonzero. `reports`
        is what the callback was called with; a refused block passes on the report before it. */
    method PerformLoop(os: seq<Outcome>) returns (ret: int, reports: seq<Report>)
      requires Valid()
      modifies this`report, this`record, this`dstLength, this`num, sched, sched.footprint, journal, dst
      ensures var r := Run(config, old(Abs()), os);
              && Abs() == r.final
              && (ret != 0 <==> r.ending == GaveUp || r.ending == Aborted)
              && (r.ending != GaveUp ==> Valid())
              && reports == Handed(r, os, old(report))
      ensures !useJournal ==> journal[..] == old(journal[..])
    {
      hide Step, Run, CopyRun.Valid, ReportsOf, Latest;
      ghost var start := Abs();
      ghost var tasks: seq<Task> := [];
      ret, reports := 0, [];
      var i := 0;
      RunFrom(config, start, [], os);
      NothingReported(os, report);
      while i < |os| && num < den
        invariant 0 <= i <= |os| && Valid() && ret == 0 && |tasks| == i
        invariant fresh(sched.footprint - old(sched.footprint))
        invariant Run(config, start, os) == Joined(tasks, Run(config, Abs(), os[i..]))
        invariant reports == ReportsOf(tasks, os) && report == Latest(tasks, os, old(report))
        invariant !useJournal ==> journal[..] == old(journal[..])
      {
        ghost var before := Abs();
        ret := Perform(os[i]);
        reports := reports + [report];
        RunStep(config, before, os[i..]);
        assert os[i..][0] == os[i] && os[i..][1..] == os[i + 1..];
        if ret != 0 {
          LoopEnds(config, start, os, tasks, before, i);
          return;
        }
        LoopGoesOn(config, start, os, tasks, before, i);
        LatestIs(tasks, Step(config, before, os[i]).task, os, old(report));
        tasks := tasks + [Step(config, before, os[i]).task];
        i := i + 1;
      }
      RunStops(config, Abs(), os[i..]);
      assert tasks + [] == tasks && ReportsOf(tasks, os) + [] == ReportsOf(tasks, os);
    }
  }

  lemma ProcessIs(c: Config, s: Copy, o: Outcome, next: Copy)
    requires s.sched.current.Some? && s.sched.current.value < |s.sched.zones|
    requires var t := Proceed(s.sched); 0 <= t.lba && 0 < t.sectors && t.lba + t.sectors <= |s.journal|
    requires |s.journal| == |s.dst| == |c.source|
    requires var t := Proceed(s.sched);
             && next.sched == UseResults(c, s.sched, t.sectors, BlockFailed(o))
             && next.journal == Mark(s.journal, t, StatusOf(o, t.sectors))
             && next.dst == WriteDst(s.dst, c.source, t, Accepted(o, t.sectors))
             && next.dstLength == Extended(s.dstLength, t.lba, Accepted(o, t.sectors)) && next.dstEnd == s.dstEnd
             && next.num == s.num + t.sectors && next.den == s.den
    ensures next == Process(c, s, o)
  {
  }

  /** A step by its three cases, with what the code relies on when it goes on. */
  lemma StepCases(c: Config, s: Copy, o: Outcome)
    requires CopyRun.Valid(c, s) && s.num < s.den
    ensures |s.sched.zones| > 0 && CursorOk(s.sched) && Gapped(s.sched.zones) && |s.journal| == |s.dst| == |c.source|
    ensures ConfigOk(c) && (s.sched.stage == 0 || s.sched.stage == 1) && (c.strategy == Plain ==> !s.sched.reverse)
    ensures match Choose(c, s.sched)
            case None => Step(c, s, o) == Refused(s)
            case Some(s1) =>
              var t := Proceed(s1);
              && Near(s1) && 0 <= t.lba && 0 < t.sectors && t.lba + t.sectors <= |s.journal|
              && Step(c, s, o) == (if NoRoom(s.dstEnd, t) then Refused(s.(sched := s1))
                                   else Done(Process(c, s.(sched := s1), o), t, c.strategy == Plain && BlockFailed(o)))
              && (!NoRoom(s.dstEnd, t) ==> CopyRun.Valid(c, Process(c, s.(sched := s1), o)))
  {
    hide Choose, Process;
    HasZones(c, s);
    if Choose(c, s.sched).Some? { ProcessOk(c, s, o); }
  }

  lemma NothingReported(os: seq<Outcome>, before: Report)
    ensures ReportsOf([], os) == [] && Latest([], os, before) == before
  {
  }

  lemma LatestIs(tasks: seq<Task>, t: Task, os: seq<Outcome>, before: Report)
    requires |tasks| < |os|
    ensures Latest(tasks + [t], os, before) == Report(t.lba, t.sectors, BlockFailed(os[|tasks|]))
  {
  }

  lemma RunFrom(c: Config, s: Copy, tasks: seq<Task>, os: seq<Outcome>)
    requires CopyRun.Valid(c, s) && tasks == []
    ensures Run(c, s, os) == Joined(tasks, Run(c, s, os[0..]))
  {
    hide Run;
    assert os[0..] == os;
    assert [] + Run(c, s, os).tasks == Run(c, s, os).tasks;
  }

  lemma RunStops(c: Config, s: Copy, os: seq<Outcome>)
    requires CopyRun.Valid(c, s) && (os == [] || s.num >= s.den)
    ensures Run(c, s, os) == RunResult(s, [], if s.num >= s.den then Finished else Interrupted)
  {
    hide Step;
  }

  lemma RunStep(c: Config, s: Copy, os: seq<Outcome>)
    requires CopyRun.Valid(c, s) && os != [] && s.num < s.den
    ensures var r := Step(c, s, os[0]);
            Run(c, s, os) == if r.Refused? then RunResult(r.next, [], GaveUp)
                             else if r.abort then RunResult(r.next, [r.task], Aborted)
                             else Prepend(r.task, Run(c, r.next, os[1..]))
  {
    hide Step;
  }

  lemma LoopGoesOn(c: Config, start: Copy, os: seq<Outcome>, tasks: seq<Task>, s: Copy, i: nat)
    requires CopyRun.Valid(c, start) && CopyRun.Valid(c, s) && i < |os| && |tasks| == i && s.num < s.den
    requires Run(c, start, os) == Joined(tasks, Run(c, s, os[i..]))
    requires Step(c, s, os[i]).Done? && !Step(c, s, os[i]).abort
    ensures var r := Step(c, s, os[i]);
            && Run(c, start, os) == Joined(tasks + [r.task], Run(c, r.next, os[i + 1..]))
            && ReportsOf(tasks + [r.task], os) ==
                 ReportsOf(tasks, os) + [Report(r.task.lba, r.task.sectors, BlockFailed(os[i]))]
  {
    hide Step, Run;
    assert os[i..][0] == os[i] && os[i..][1..] == os[i + 1..];
    RunStep(c, s, os[i..]);
    var r := Step(c, s, os[i]);
    var rest := Run(c, r.next, os[i + 1..]);
    assert tasks + ([r.task] + rest.tasks) == tasks + [r.task] + rest.tasks;
  }

  lemma LoopEnds(c: Config, start: Copy, os: seq<Outcome>, tasks: seq<Task>, s: Copy, i: nat)
    requires CopyRun.Valid(c, start) && CopyRun.Valid(c, s) && i < |os| && |tasks| == i && s.num < s.den
    requires Run(c, start, os) == Joined(tasks, Run(c, s, os[i..]))
    ensures var r := Step(c, s, os[i]);
            && (r.Refused? ==> Run(c, start, os) == RunResult(r.next, tasks, GaveUp))
            && (r.Done? && r.abort ==>
                  && Run(c, start, os) == RunResult(r.next, tasks + [r.task], Aborted)
                  && ReportsOf(tasks + [r.task], os) ==
                     ReportsOf(tasks, os) + [Report(r.task.lba, r.task.sectors, BlockFailed(os[i]))])
  {
    hide Step, Run;
    assert os[i..][0] == os[i];
    RunStep(c, s, os[i..]);
    assert tasks + [] == tasks;
  }

  /** The state a copy of a whole disk starts in. */
  function FreshCopy(dst: seq<Content>, dstLength: int): Copy {
    Copy(FreshSched(|dst|), Blank(|dst|), dst, dstLength, dstLength, 0, |dst|)
  }

  /** What a stopped copy leaves on file. */
  function Left(journal: seq<SectorStatus>, dst: seq<Content>, dstLength: int): Copy {
    Copy(FreshSched(0), journal, dst, dstLength, dstLength, 0, 0)
  }

  lemma FreshCopyValid(c: Config, dst: seq<Content>, dstLength: int)
    requires ConfigOk(c) && |dst| == |c.source| > 0
    ensures CopyRun.Valid(c, FreshCopy(dst, dstLength))
    ensures FreshCopy(dst, dstLength) == Reopen(Left(Blank(|dst|), dst, dstLength))
  {
    FreshIsBlankResume(Blank(|dst|));
    ReopenValid(c, Left(Blank(|dst|), dst, dstLength));
  }
}
