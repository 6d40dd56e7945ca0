/** Stopping a copy and resuming it from its journal. */
module CopyResume {
  import opened CopyTypes
  import opened ReadStrategies
  import opened ZoneCover
  import opened JournalParser
  import opened CopyRun
  import opened CopyBounds

  /** The copy that opening the journal left behind produces; the destination is measured anew. */
  function Reopen(s: Copy): (r: Copy)
    ensures Tracks(r.sched.zones, r.journal) && r.den == Total(r.sched.zones) == CountUnread(s.journal)
  {
    ParseExact(s.journal);
    Copy(ResumedSched(s.journal), s.journal, s.dst, s.dstLength, s.dstLength, 0, Parse(s.journal).den)
  }

  lemma ReopenValid(c: Config, s: Copy)
    requires ConfigOk(c) && |s.journal| == |s.dst| == |c.source|
    ensures Valid(c, Reopen(s))
  {
    ParseExact(s.journal);
  }

  /** The block `get_task` would ask for, if any. */
  function NextTask(c: Config, s: Sched): Option<Task>
    requires |s.zones| > 0 && CursorOk(s)
  {
    if Choose(c, s).Some? then Some(Proceed(Choose(c, s).value)) else None
  }

  /** The strategies that only ever read forward. */
  predicate Forward(c: Config) {
    c.strategy == Plain || c.strategy == SmartNoReverse || c.strategy == SkipfailNoReverse
  }

  // ----- what a forward strategy looks at -----

  /** Equal but for the end flags, which forward strategies never look at. */
  ghost predicate Alike(a: seq<Zone>, b: seq<Zone>) {
    |a| == |b| && forall i | 0 <= i < |a| :: a[i].(endBad := false) == b[i].(endBad := false)
  }

  lemma AlikeStuck(c: Config, a: seq<Zone>, b: seq<Zone>, i: nat)
    requires Forward(c) && Alike(a, b) && i < |a|
    ensures Stuck(c, a, i) <==> Stuck(c, b, i)
  {
    assert a[i].(endBad := false) == b[i].(endBad := false);
  }

  lemma FirstLiveIs(c: Config, zones: seq<Zone>, r: nat)
    requires r <= |zones| && (r < |zones| ==> !Stuck(c, zones, r))
    requires forall j | 0 <= j < r :: Stuck(c, zones, j)
    ensures FirstLive(c, zones, 0) == r
  {
  }

  lemma AlikeFirstLive(c: Config, a: seq<Zone>, b: seq<Zone>)
    requires Forward(c) && Alike(a, b)
    ensures FirstLive(c, a, 0) == FirstLive(c, b, 0)
  {
    forall i | 0 <= i < |a| ensures Stuck(c, a, i) <==> Stuck(c, b, i) { AlikeStuck(c, a, b, i); }
    FirstLiveIs(c, b, FirstLive(c, a, 0));
  }

  lemma AlikeLength(a: seq<Zone>, b: seq<Zone>, i: nat)
    requires Alike(a, b) && i < |a|
    ensures Length(a[i]) == Length(b[i])
  {
    assert a[i].(endBad := false) == b[i].(endBad := false);
  }

  lemma AlikeLargest(a: seq<Zone>, b: seq<Zone>)
    requires Alike(a, b) && |a| > 0
    ensures LargestOf(a, |a|) == LargestOf(b, |b|)
  {
    forall i | 0 <= i < |a| ensures Length(a[i]) == Length(b[i]) { AlikeLength(a, b, i); }
    var x, y := LargestOf(a, |a|), LargestOf(b, |b|);
    assert Length(a[x]) == Length(b[x]) && Length(a[y]) == Length(b[y]);
  }

  lemma AlikeSplit(a: seq<Zone>, b: seq<Zone>, i: nat, at: int)
    requires Alike(a, b) && i < |a|
    ensures Alike(SplitZone(a, i, at), SplitZone(b, i, at))
  {
    assert a[i].(endBad := false) == b[i].(endBad := false);
    var x, y := SplitZone(a, i, at), SplitZone(b, i, at);
    forall j | 0 <= j < |x| ensures x[j].(endBad := false) == y[j].(endBad := false) {
      assert j < i ==> a[j].(endBad := false) == b[j].(endBad := false);
      assert j > i + 1 ==> a[j - 1].(endBad := false) == b[j - 1].(endBad := false);
    }
  }

  // ----- the current zone carries no information -----

  /** In a forward strategy the current zone is the one a fresh search would find. */
  ghost predicate Coherent(c: Config, s: Sched) {
    && CursorOk(s) && !s.reverse
    && (c.strategy != Plain && s.stage == 0 && s.current.Some? ==>
          s.current.value == FirstLive(c, s.zones, 0) && !s.zones[s.current.value].beginBad)
  }

  /** What `get_task` of a forward strategy leaves: before the current zone all are stuck. */
  ghost predicate Aimed(c: Config, s: Sched) {
    && s.current.Some? && s.current.value < |s.zones| && !s.reverse
    && (c.strategy != Plain && s.stage == 0 ==>
          && !s.zones[s.current.value].beginBad
          && forall j | 0 <= j < s.current.value :: Stuck(c, s.zones, j))
  }

  lemma JumpAims(c: Config, s: Sched, k: nat)
    requires c.strategy == SmartNoReverse && s.stage == 0 && k < |s.zones| && AllStuck(c, s.zones)
    ensures SmartJump(c, s, k).Some? && Aimed(c, SmartJump(c, s, k).value)
  {
    hide MidPoint, FirstLive;
    SmartJumpLands(c, s, k);
    var s' := SmartJump(c, s, k).value;
    forall j | 0 <= j < k + 1 ensures Stuck(c, s'.zones, j) {
      assert Stuck(c, s.zones, j);
    }
  }

  lemma SmartAims(c: Config, s: Sched)
    requires c.strategy == SmartNoReverse && Coherent(c, s) && |s.zones| > 0 && (s.stage == 0 || s.stage == 1)
    ensures SmartChoose(c, s).Some? && Aimed(c, SmartChoose(c, s).value)
  {
    hide SmartJump;
    var i := FirstLive(c, s.zones, 0);
    if i == |s.zones| && s.current.None? && s.stage == 0 { JumpAims(c, s, LargestOf(s.zones, |s.zones|)); }
  }

  lemma SkipAims(c: Config, s: Sched)
    requires c.strategy == SkipfailNoReverse && ConfigOk(c) && Coherent(c, s) && |s.zones| > 0 && s.stage == 0
    requires forall i | 0 <= i < |s.zones| :: 0 <= s.zones[i].begin
    ensures SkipfailChoose(c, s).Some? ==> Aimed(c, SkipfailChoose(c, s).value)
  {
    var i := FirstLive(c, s.zones, 0);
    if s.current.None? && i < |s.zones| && s.zones[i].beginBad {
      var s' := SkipfailAt(c, s, i);
      SkipPointInside(c, s.zones[i]);
      hide SkipPoint;
      forall j | 0 <= j < i + 1 ensures Stuck(c, s'.zones, j) {
        assert j < i ==> Stuck(c, s.zones, j);
      }
    }
  }

  lemma ChooseAims(c: Config, s: Sched)
    requires Forward(c) && ConfigOk(c) && Coherent(c, s) && |s.zones| > 0 && Gapped(s.zones)
    requires s.stage == 0 || (s.stage == 1 && IsSmart(c))
    requires Choose(c, s).Some?
    ensures Aimed(c, Choose(c, s).value)
  {
    hide SmartChoose, SkipfailChoose;
    if c.strategy == SmartNoReverse { SmartAims(c, s); }
    if c.strategy == SkipfailNoReverse { SkipAims(c, s); }
  }

  lemma UseCoheres(c: Config, s: Sched, failed: bool)
    requires Forward(c) && Aimed(c, s)
    requires s.stage == 0 || (s.stage == 1 && IsSmart(c))
    ensures Coherent(c, UseResults(c, s, Proceed(s).sectors, failed))
  {
    var s' := UseResults(c, s, Proceed(s).sectors, failed);
    if c.strategy != Plain && s'.stage == 0 && s'.current.Some? {
      forall j | 0 <= j < s.current.value ensures Stuck(c, s'.zones, j) {
        assert Stuck(c, s.zones, j) && s'.zones[j] == s.zones[j];
      }
      FirstLiveIs(c, s'.zones, s'.current.value);
    }
  }

  // ----- two schedulers that behave alike -----

  /** `b` is `a`, up to end flags and to having forgotten the current zone. */
  ghost predicate Mimics(c: Config, a: Sched, b: Sched) {
    && Alike(a.zones, b.zones) && a.stage == b.stage && !a.reverse && !b.reverse
    && (c.strategy == Plain || a.current == b.current || (b.current == None && a.stage == 0))
  }

  /** Same position, same zones but for end flags, both about to read forward. */
  ghost predicate InStep(a: Sched, b: Sched) {
    && Alike(a.zones, b.zones) && a.stage == b.stage && a.current == b.current && !a.reverse && !b.reverse
    && a.current.Some? && a.current.value < |a.zones|
  }

  lemma SameMidPoint(x: Zone, y: Zone)
    requires x.(endBad := false) == y.(endBad := false)
    ensures MidPoint(x) == MidPoint(y)
  {
  }

  lemma MimicsJump(c: Config, a: Sched, b: Sched, k: nat)
    requires c.strategy == SmartNoReverse && Mimics(c, a, b) && k < |a.zones|
    requires AllStuck(c, a.zones) && AllStuck(c, b.zones)
    ensures SmartJump(c, a, k).Some? && SmartJump(c, b, k).Some?
    ensures InStep(SmartJump(c, a, k).value, SmartJump(c, b, k).value)
  {
    hide SmartJump, SplitZone, MidPoint, FirstLive;
    SameMidPoint(a.zones[k], b.zones[k]);
    SplitLength(a.zones, k, MidPoint(a.zones[k]));
    assert a.zones[k].(endBad := false) == b.zones[k].(endBad := false);
    AlikeSplit(a.zones, b.zones, k, MidPoint(a.zones[k]));
    SmartJumpLands(c, a, k);
    SmartJumpLands(c, b, k);
  }

  lemma MimicsSmart(c: Config, a: Sched, b: Sched)
    requires c.strategy == SmartNoReverse && Coherent(c, a) && Coherent(c, b) && Mimics(c, a, b) && |a.zones| > 0
    ensures SmartChoose(c, a).Some? && SmartChoose(c, b).Some?
    ensures InStep(SmartChoose(c, a).value, SmartChoose(c, b).value)
  {
    AlikeFirstLive(c, a.zones, b.zones);
    var i := FirstLive(c, a.zones, 0);
    if i < |a.zones| {
      assert a.zones[i].(endBad := false) == b.zones[i].(endBad := false);
    } else if a.current.None? && a.stage != 1 {
      AlikeLargest(a.zones, b.zones);
      var k := LargestOf(a.zones, |a.zones|);
      AlikeLength(a.zones, b.zones, k);
      MimicsJump(c, a, b, k);
    }
  }

  lemma MimicsSkip(c: Config, a: Sched, b: Sched)
    requires c.strategy == SkipfailNoReverse && Coherent(c, a) && Coherent(c, b) && Mimics(c, a, b) && |a.zones| > 0
    requires a.stage == 0
    ensures SkipfailChoose(c, a).Some? <==> SkipfailChoose(c, b).Some?
    ensures SkipfailChoose(c, a).Some? ==> InStep(SkipfailChoose(c, a).value, SkipfailChoose(c, b).value)
  {
    AlikeFirstLive(c, a.zones, b.zones);
    var i := FirstLive(c, a.zones, 0);
    if i < |a.zones| {
      assert a.zones[i].(endBad := false) == b.zones[i].(endBad := false);
      AlikeSplit(a.zones, b.zones, i, SkipPoint(c, a.zones[i]));
    }
  }

  lemma MimicsChoose(c: Config, a: Sched, b: Sched)
    requires Forward(c) && Coherent(c, a) && Coherent(c, b) && Mimics(c, a, b) && |a.zones| > 0
    requires a.stage == 0 || IsSmart(c)
    ensures Choose(c, a).Some? <==> Choose(c, b).Some?
    ensures Choose(c, a).Some? ==> InStep(Choose(c, a).value, Choose(c, b).value)
  {
    if c.strategy == SmartNoReverse { MimicsSmart(c, a, b); }
    if c.strategy == SkipfailNoReverse { MimicsSkip(c, a, b); }
  }

  lemma MimicsUse(c: Config, a: Sched, b: Sched, n: int, failed: bool)
    requires Forward(c) && InStep(a, b)
    ensures Mimics(c, UseResults(c, a, n, failed), UseResults(c, b, n, failed))
    ensures Proceed(a) == Proceed(b)
  {
    var i := a.current.value;
    assert a.zones[i].(endBad := false) == b.zones[i].(endBad := false);
    var x, y := Consume(a, n, failed).zones, Consume(b, n, failed).zones;
    forall j | 0 <= j < |x| ensures x[j].(endBad := false) == y[j].(endBad := false) {
      assert j < |a.zones| && a.zones[j].(endBad := false) == b.zones[j].(endBad := false);
      if j + 1 < |a.zones| { assert a.zones[j + 1].(endBad := false) == b.zones[j + 1].(endBad := false); }
    }
  }

  // ----- flags against the journal -----

  /** A set flag always has a read error just beyond its border. */
  ghost predicate FlagsSound(zones: seq<Zone>, journal: seq<SectorStatus>) {
    forall i | 0 <= i < |zones| ::
      && (zones[i].beginBad ==> 0 < zones[i].begin <= |journal| && IsError(journal[zones[i].begin - 1]))
      && (zones[i].endBad ==> 0 <= zones[i].end < |journal| && IsError(journal[zones[i].end]))
  }

  /** The destination took every block that was read. */
  ghost predicate FullWrites(os: seq<Outcome>) {
    forall i | 0 <= i < |os| :: !os[i].WrittenShort?
  }

  lemma TaskUnread(s: Sched, journal: seq<SectorStatus>, k: int)
    requires Near(s) && Exact(s.zones, journal) && InTask(Proceed(s), k)
    ensures 0 <= k < |journal| && journal[k] == Unread
  {
    TaskInZone(s);
    assert InZone(s.zones[s.current.value], k);
  }

  /** The sectors next to another zone are read only where a zone touches the one being read. */
  lemma OutsideTask(s: Sched, journal: seq<SectorStatus>, i: nat)
    requires Near(s) && Exact(s.zones, journal) && i < |s.zones| && i != s.current.value
    ensures InTask(Proceed(s), s.zones[i].begin - 1) ==>
              s.reverse && i == s.current.value + 1 && s.zones[i].begin == s.zones[s.current.value].end
    ensures InTask(Proceed(s), s.zones[i].end) ==> !s.reverse && i + 1 == s.current.value && !Gapped(s.zones)
  {
    TaskInZone(s);
    var i0 := s.current.value;
    if i < i0 {
      assert s.zones[i].end <= s.zones[i0].begin;
      if i + 1 < i0 { assert s.zones[i].end <= s.zones[i + 1].begin < s.zones[i + 1].end <= s.zones[i0].begin; }
    } else {
      assert s.zones[i0].end <= s.zones[i].begin;
      if i0 + 1 < i { assert s.zones[i0].end <= s.zones[i0 + 1].begin < s.zones[i0 + 1].end <= s.zones[i].begin; }
    }
  }

  lemma InsideJournal(s: Sched, journal: seq<SectorStatus>)
    requires Near(s) && Exact(s.zones, journal)
    ensures Proceed(s).lba >= 0 && Proceed(s).sectors > 0 && Proceed(s).lba + Proceed(s).sectors <= |journal|
  {
    TaskInZone(s);
  }

  /** Each zone left after a block is an old one or the current one cut down. */
  lemma ConsumedFrom(s: Sched, failed: bool, j: nat) returns (i: nat)
    requires Near(s) && j < |Consume(s, Proceed(s).sectors, failed).zones|
    ensures i < |s.zones|
    ensures i == if |Consume(s, Proceed(s).sectors, failed).zones| == |s.zones| || j < s.current.value then j else j + 1
    ensures var n := Proceed(s).sectors; var z := Consume(s, n, failed).zones[j];
            if i == s.current.value then z == Shrink(s.zones[i], s.reverse, n, failed) && z.begin < z.end
            else z == s.zones[i]
  {
    var n, i0 := Proceed(s).sectors, s.current.value;
    TaskInZone(s);
    var z := Shrink(s.zones[i0], s.reverse, n, failed);
    if z.begin == z.end {
      i := if j < i0 then j else j + 1;
    } else {
      i := j;
    }
  }

  lemma ConsumeSound(s: Sched, journal: seq<SectorStatus>, failed: bool, status: SectorStatus)
    requires Near(s) && Exact(s.zones, journal) && FlagsSound(s.zones, journal)
    requires failed ==> IsError(status)
    ensures Proceed(s).lba >= 0 && Proceed(s).sectors > 0 && Proceed(s).lba + Proceed(s).sectors <= |journal|
    ensures FlagsSound(Consume(s, Proceed(s).sectors, failed).zones, Mark(journal, Proceed(s), status))
  {
    hide Near, Exact, Consume;
    TaskInZone(s);
    InsideJournal(s, journal);
    var t := Proceed(s);
    var zones, journal' := Consume(s, t.sectors, failed).zones, Mark(journal, t, status);
    forall k | 0 <= k < |journal| && IsError(journal[k]) ensures journal'[k] == journal[k] {
      if InTask(t, k) { TaskUnread(s, journal, k); }
    }
    forall j | 0 <= j < |zones|
      ensures zones[j].beginBad ==> 0 < zones[j].begin <= |journal| && IsError(journal'[zones[j].begin - 1])
      ensures zones[j].endBad ==> 0 <= zones[j].end < |journal| && IsError(journal'[zones[j].end])
    {
      var i := ConsumedFrom(s, failed, j);
    }
  }

  lemma ChooseSound(c: Config, s: Sched, journal: seq<SectorStatus>)
    requires ConfigOk(c) && CursorOk(s) && |s.zones| > 0 && FlagsSound(s.zones, journal)
    requires Choose(c, s).Some?
    ensures FlagsSound(Choose(c, s).value.zones, journal)
  {
    hide Choose, FlagsSound;
    if Choose(c, s).value.zones != s.zones {
      var i, at := SplitPlace(c, s);
      SplitSound(s.zones, i, at, journal);
    }
  }

  lemma SplitSound(zones: seq<Zone>, i: nat, at: int, journal: seq<SectorStatus>)
    requires FlagsSound(zones, journal) && i < |zones|
    ensures FlagsSound(SplitZone(zones, i, at), journal)
  {
    SplitAt(zones, i, at);
    var split := SplitZone(zones, i, at);
    hide SplitZone;
    forall j | 0 <= j < |split|
      ensures split[j].beginBad ==> 0 < split[j].begin <= |journal| && IsError(journal[split[j].begin - 1])
      ensures split[j].endBad ==> 0 <= split[j].end < |journal| && IsError(journal[split[j].end])
    {
      var o := zones[if j <= i then j else j - 1];
      assert split[j].beginBad ==> o.beginBad && split[j].begin == o.begin;
      assert split[j].endBad ==> o.endBad && split[j].end == o.end;
    }
  }

  lemma PointsAligned(c: Config)
    ensures forall z :: MidPoint(z) % SECTORS_AT_ONCE == 0
    ensures forall z :: SkipPoint(c, z) % SECTORS_AT_ONCE == 0
  {
  }

  lemma PlainKeepsZones(c: Config, s: Sched)
    requires CursorOk(s) && |s.zones| > 0
    ensures c.strategy == Plain ==> Choose(c, s).Some? && Choose(c, s).value.zones == s.zones
  {
    hide SmartChoose, SkipfailChoose;
  }

  /** Where `get_task` splits, when it does. */
  lemma SplitPlace(c: Config, s: Sched) returns (i: nat, at: int)
    requires CursorOk(s) && |s.zones| > 0 && Choose(c, s).Some? && Choose(c, s).value.zones != s.zones
    ensures i < |s.zones| && Choose(c, s).value.zones == SplitZone(s.zones, i, at)
    ensures ConfigOk(c) && 0 <= s.zones[i].begin ==> s.zones[i].begin < at < s.zones[i].end
    ensures at % SECTORS_AT_ONCE == 0 && (IsSkipfail(c) ==> !Stuck(c, s.zones, i))
  {
    hide SmartChoose, SkipfailChoose, SplitZone, MidPoint, SkipPoint, Choose;
    PointsAligned(c);
    if IsSmart(c) {
      SmartIsChosen(c, s);
      i := SmartPlace(c, s);
      at := MidPoint(s.zones[i]);
      if 0 <= s.zones[i].begin { MidPointInside(s.zones[i]); }
    } else {
      PlainKeepsZones(c, s);
      SkipfailIsChosen(c, s);
      i := SkipfailPlace(c, s);
      at := SkipPoint(c, s.zones[i]);
      if ConfigOk(c) && 0 <= s.zones[i].begin { SkipPointInside(c, s.zones[i]); }
    }
  }

  /** Under every strategy a set flag keeps an error next to it, as long as no write was short. */
  lemma StepSound(c: Config, s: Copy, o: Outcome)
    requires Valid(c, s) && s.num < s.den && FlagsSound(s.sched.zones, s.journal) && !o.WrittenShort?
    ensures Step(c, s, o).Done? ==> FlagsSound(Step(c, s, o).next.sched.zones, Step(c, s, o).next.journal)
  {
    hide Choose, UseResults;
    HasZones(c, s);
    if Step(c, s, o).Done? {
      var s1 := Choose(c, s.sched).value;
      var n := Proceed(s1).sectors;
      ProcessOk(c, s, o);
      ChooseSound(c, s.sched, s.journal);
      ConsumeSound(s1, s.journal, BlockFailed(o), StatusOf(o, n));
      ModeKept(c, s.sched, n, BlockFailed(o));
    }
  }

  /** A short write sets a flag without an error next to it, unless the block finished its zone. */
  lemma ShortWriteFlags(c: Config, s: Copy, written: nat)
    requires Valid(c, s) && s.num < s.den && FlagsSound(s.sched.zones, s.journal)
    requires Step(c, s, WrittenShort(written)).Done?
    ensures var s1, next := Choose(c, s.sched).value, Step(c, s, WrittenShort(written)).next;
            FlagsSound(next.sched.zones, next.journal) <==> |next.sched.zones| < |s1.zones|
  {
    hide Choose, UseResults;
    HasZones(c, s);
    var o, s1 := WrittenShort(written), Choose(c, s.sched).value;
    var t := Proceed(s1);
    ProcessOk(c, s, o);
    ChooseSound(c, s.sched, s.journal);
    ModeKept(c, s.sched, t.sectors, true);
    TaskInZone(s1);
    ShortConsume(s1, s.journal);
  }

  lemma ShortConsume(s: Sched, journal: seq<SectorStatus>)
    requires Near(s) && Exact(s.zones, journal) && FlagsSound(s.zones, journal)
    ensures Proceed(s).lba >= 0 && Proceed(s).sectors > 0 && Proceed(s).lba + Proceed(s).sectors <= |journal|
    ensures var zones := Consume(s, Proceed(s).sectors, true).zones;
            FlagsSound(zones, Mark(journal, Proceed(s), ReadOk)) <==> |zones| < |s.zones|
  {
    TaskInZone(s);
    var t, i := Proceed(s), s.current.value;
    var zones, journal' := Consume(s, t.sectors, true).zones, Mark(journal, t, ReadOk);
    if |zones| < |s.zones| {
      ConsumeSound(s, journal, false, ReadOk);
      assert Consume(s, t.sectors, false).zones == zones;
    } else {
      assert zones[i] == Shrink(s.zones[i], s.reverse, t.sectors, true);
      assert journal'[if s.reverse then zones[i].end else zones[i].begin - 1] == ReadOk;
    }
  }

  /** So does every run, from a fresh start or from any journal. */
  lemma {:induction false} RunSound(c: Config, s: Copy, os: seq<Outcome>)
    requires Valid(c, s) && FlagsSound(s.sched.zones, s.journal) && FullWrites(os)
    ensures Run(c, s, os).ending != GaveUp ==>
              FlagsSound(Run(c, s, os).final.sched.zones, Run(c, s, os).final.journal)
    decreases |os|
  {
    hide Step, FlagsSound;
    if s.num < s.den && os != [] {
      StepSound(c, s, os[0]);
      var r := Step(c, s, os[0]);
      if r.Done? && !r.abort { RunSound(c, r.next, os[1..]); }
    }
  }

  lemma ReopenSound(s: Copy)
    ensures FlagsSound(Reopen(s).sched.zones, s.journal)
  {
    ParseExact(s.journal);
  }

  /** In every run from any journal, a blank one included, a set flag has an error next to it. */
  lemma ReopenedRunSound(c: Config, s: Copy, os: seq<Outcome>)
    requires ConfigOk(c) && |s.journal| == |s.dst| == |c.source| && FullWrites(os)
    ensures Valid(c, Reopen(s))
    ensures var r := Run(c, Reopen(s), os);
            r.ending != GaveUp ==> FlagsSound(r.final.sched.zones, r.final.journal)
  {
    hide Run;
    ReopenValid(c, s);
    ReopenSound(s);
    RunSound(c, Reopen(s), os);
  }

  lemma ConsumeBeginFlags(s: Sched, journal: seq<SectorStatus>, failed: bool, status: SectorStatus)
    requires Near(s) && !s.reverse && Exact(s.zones, journal) && BeginFlagsMatch(s.zones, journal)
    requires failed <==> IsError(status)
    ensures Proceed(s).lba >= 0 && Proceed(s).sectors > 0 && Proceed(s).lba + Proceed(s).sectors <= |journal|
    ensures BeginFlagsMatch(Consume(s, Proceed(s).sectors, failed).zones, Mark(journal, Proceed(s), status))
  {
    TaskInZone(s);
    var t, i0 := Proceed(s), s.current.value;
    var zones, journal' := Consume(s, t.sectors, failed).zones, Mark(journal, t, status);
    InsideJournal(s, journal);
    hide Consume, Near, Exact;
    forall j | 0 <= j < |zones|
      ensures zones[j].beginBad <==> (0 < zones[j].begin <= |journal| && IsError(journal'[zones[j].begin - 1]))
    {
      var i := ConsumedFrom(s, failed, j);
      if i != i0 { OutsideTask(s, journal, i); }
    }
  }

  lemma SplitBeginFlags(zones: seq<Zone>, i: nat, at: int, journal: seq<SectorStatus>)
    requires Tracks(zones, journal) && BeginFlagsMatch(zones, journal)
    requires i < |zones| && zones[i].begin < at < zones[i].end
    ensures BeginFlagsMatch(SplitZone(zones, i, at), journal)
  {
    var split := SplitZone(zones, i, at);
    assert InZone(zones[i], at - 1);
    assert journal[at - 1] == Unread;
    forall j | 0 <= j < |split|
      ensures split[j].beginBad <==> (0 < split[j].begin <= |journal| && IsError(journal[split[j].begin - 1]))
    {
      if j != i + 1 {
        var o := if j <= i then j else j - 1;
        assert split[j].begin == zones[o].begin && split[j].beginBad == zones[o].beginBad;
      }
    }
  }

  lemma ChooseBeginFlags(c: Config, s: Sched, journal: seq<SectorStatus>)
    requires ConfigOk(c) && CursorOk(s) && |s.zones| > 0 && Tracks(s.zones, journal)
    requires BeginFlagsMatch(s.zones, journal) && Choose(c, s).Some?
    ensures BeginFlagsMatch(Choose(c, s).value.zones, journal)
  {
    if Choose(c, s).value.zones != s.zones {
      var i, at := SplitPlace(c, s);
      SplitBeginFlags(s.zones, i, at, journal);
    }
  }

  // ----- states a forward copy can be in -----

  /** A valid state of a forward strategy whose flags the journal explains. */
  ghost predicate Resumable(c: Config, s: Copy) {
    Valid(c, s) && Coherent(c, s.sched) && BeginFlagsMatch(s.sched.zones, s.journal)
  }

  lemma ReopenResumable(c: Config, s: Copy)
    requires Forward(c) && ConfigOk(c) && |s.journal| == |s.dst| == |c.source|
    ensures Resumable(c, Reopen(s))
  {
    ParseExact(s.journal);
  }

  lemma StepResumable(c: Config, s: Copy, o: Outcome)
    requires Forward(c) && Resumable(c, s) && s.num < s.den && !o.WrittenShort?
    ensures Step(c, s, o).Done? ==> Resumable(c, Step(c, s, o).next)
  {
    hide Choose, UseResults;
    HasZones(c, s);
    if Step(c, s, o).Done? {
      var s1 := Choose(c, s.sched).value;
      var n := Proceed(s1).sectors;
      ProcessOk(c, s, o);
      ChooseAims(c, s.sched);
      ChooseBeginFlags(c, s.sched, s.journal);
      ConsumeBeginFlags(s1, s.journal, BlockFailed(o), StatusOf(o, n));
      ModeKept(c, s.sched, n, BlockFailed(o));
      UseCoheres(c, s1, BlockFailed(o));
    }
  }

  lemma {:induction false} RunResumable(c: Config, s: Copy, os: seq<Outcome>)
    requires Forward(c) && Resumable(c, s) && FullWrites(os)
    ensures Run(c, s, os).ending != GaveUp ==> Resumable(c, Run(c, s, os).final)
    decreases |os|
  {
    hide Step;
    if s.num < s.den && os != [] {
      StepResumable(c, s, os[0]);
      var r := Step(c, s, os[0]);
      if r.Done? && !r.abort { RunResumable(c, r.next, os[1..]); }
    }
  }

  // ----- two copies that go on alike -----

  ghost predicate Twins(c: Config, a: Copy, b: Copy) {
    && Resumable(c, a) && Resumable(c, b) && Mimics(c, a.sched, b.sched)
    && a.journal == b.journal && a.dst == b.dst && a.den - a.num == b.den - b.num
    && a.dstLength == b.dstLength && a.dstEnd == b.dstEnd
  }

  lemma TwinsStep(c: Config, a: Copy, b: Copy, o: Outcome)
    requires Forward(c) && Twins(c, a, b) && a.num < a.den
    ensures var x, y := Step(c, a, o), Step(c, b, o);
            && (x.Done? <==> y.Done?)
            && x.next.journal == y.next.journal && x.next.dst == y.next.dst && x.next.dstLength == y.next.dstLength
            && (x.Done? ==> x.task == y.task && x.abort == y.abort)
            && (x.Done? && !o.WrittenShort? ==> Twins(c, x.next, y.next))
  {
    hide Choose, UseResults;
    HasZones(c, a);
    HasZones(c, b);
    MimicsChoose(c, a.sched, b.sched);
    if Choose(c, a.sched).Some? {
      var a1, b1 := Choose(c, a.sched).value, Choose(c, b.sched).value;
      MimicsUse(c, a1, b1, Proceed(a1).sectors, BlockFailed(o));
      if !o.WrittenShort? {
        StepResumable(c, a, o);
        StepResumable(c, b, o);
      }
      if Step(c, a, o).Done? {
        ProcessOk(c, a, o);
        ProcessOk(c, b, o);
      }
    }
  }

  /** The two copies read the same blocks, end alike and leave the same behind. */
  ghost predicate SameRun(c: Config, a: Copy, b: Copy, os: seq<Outcome>)
    requires Valid(c, a) && Valid(c, b)
  {
    var x, y := Run(c, a, os), Run(c, b, os);
    && x.tasks == y.tasks && x.ending == y.ending
    && x.final.journal == y.final.journal && x.final.dst == y.final.dst && x.final.dstLength == y.final.dstLength
  }

  lemma {:induction false} TwinsRun(c: Config, a: Copy, b: Copy, os: seq<Outcome>)
    requires Forward(c) && Twins(c, a, b) && FullWrites(os)
    ensures SameRun(c, a, b, os)
    decreases |os|
  {
    hide Step;
    if a.num < a.den && os != [] {
      TwinsStep(c, a, b, os[0]);
      var x, y := Step(c, a, os[0]), Step(c, b, os[0]);
      if x.Done? && !x.abort { TwinsRun(c, x.next, y.next, os[1..]); }
    }
  }

  lemma ReopenAlike(c: Config, s: Copy)
    requires Resumable(c, s)
    ensures Alike(s.sched.zones, Reopen(s).sched.zones) && Gapped(Reopen(s).sched.zones)
  {
    var p := Parse(s.journal);
    ParseExact(s.journal);
    LiveIsParsed(s.sched.zones, s.journal);
    forall i | 0 <= i < |s.sched.zones| ensures s.sched.zones[i].(endBad := false) == p.zones[i].(endBad := false) {
      assert s.sched.zones[i].begin == p.zones[i].begin && s.sched.zones[i].end == p.zones[i].end;
    }
  }

  lemma ReopenedMimics(c: Config, s: Copy)
    requires Forward(c) && Resumable(c, s) && s.sched.stage == 0
    ensures Resumable(c, Reopen(s)) && Mimics(c, s.sched, Reopen(s).sched)
  {
    LiveIsParsed(s.sched.zones, s.journal);
    ReopenResumable(c, s);
    ReopenAlike(c, s);
  }

  lemma ReopenedIsTwin(c: Config, s: Copy)
    requires Forward(c) && Resumable(c, s) && s.sched.stage == 0 && s.dstEnd == s.dstLength
    ensures Twins(c, s, Reopen(s))
  {
    ReopenedMimics(c, s);
    LiveIsParsed(s.sched.zones, s.journal);
  }

  /** A forward copy in stage 0 goes on as the copy reopened from its journal does, for every
      pattern of read errors, as long as its destination has the size measured at opening. */
  lemma ReopenedRun(c: Config, s: Copy, after: seq<Outcome>)
    requires Forward(c) && Resumable(c, s) && s.sched.stage == 0 && s.dstEnd == s.dstLength && FullWrites(after)
    ensures Valid(c, Reopen(s)) && SameRun(c, s, Reopen(s), after)
  {
    ReopenedIsTwin(c, s);
    TwinsRun(c, s, Reopen(s), after);
  }
}
