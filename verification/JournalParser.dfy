/** Reading a journal back into zones. */
module JournalParser {
  import opened CopyTypes
  import opened ReadStrategies
  import opened ZoneCover

  /** The parser after some bytes: finished zones, the zone being scanned, sectors counted. */
  datatype Scan = Scan(zones: seq<Zone>, open: Option<Zone>, den: int)

  function CloseZone(p: Scan, end: int, endBad: bool): Scan
    requires p.open.Some?
  {
    var z := p.open.value.(end := end, endBad := endBad);
    Scan(p.zones + [z], None, p.den + Length(z))
  }

  /** What the parser does with byte `i`, of status `status`, after a byte `previous`. */
  function ScanByte(p: Scan, i: int, status: SectorStatus, previous: SectorStatus): Scan {
    if status == Unread then
      if p.open.Some? then p else p.(open := Some(Zone(i, 0, i > 0 && IsError(previous), false)))
    else if p.open.Some? then CloseZone(p, i, IsError(status)) else p
  }

  function Previous(journal: seq<SectorStatus>, i: nat): SectorStatus
    requires i <= |journal|
  {
    if i == 0 then Unread else journal[i - 1]
  }

  function ScanTo(journal: seq<SectorStatus>, k: nat): Scan
    requires k <= |journal|
  {
    if k == 0 then Scan([], None, 0)
    else ScanByte(ScanTo(journal, k - 1), k - 1, journal[k - 1], Previous(journal, k - 1))
  }

  function Parse(journal: seq<SectorStatus>): Scan {
    var p := ScanTo(journal, |journal|);
    if p.open.Some? then CloseZone(p, |journal|, false) else p
  }

  /** A begin flag is set exactly when the byte before the zone is a read error. */
  ghost predicate BeginFlagsMatch(zones: seq<Zone>, journal: seq<SectorStatus>) {
    forall i | 0 <= i < |zones| ::
      zones[i].beginBad <==> (0 < zones[i].begin <= |journal| && IsError(journal[zones[i].begin - 1]))
  }

  ghost predicate EndFlagsMatch(zones: seq<Zone>, journal: seq<SectorStatus>) {
    forall i | 0 <= i < |zones| ::
      zones[i].endBad <==> (0 <= zones[i].end < |journal| && IsError(journal[zones[i].end]))
  }

  // ----- what one scan has established after k bytes -----

  ghost predicate ScanShape(p: Scan, k: int) {
    && Gapped(p.zones)
    && (forall i | 0 <= i < |p.zones| :: p.zones[i].end < k)
    && (p.open.Some? ==> 0 <= p.open.value.begin < k)
    && (p.open.Some? ==> forall i | 0 <= i < |p.zones| :: p.zones[i].end < p.open.value.begin)
  }

  ghost predicate ScanCovers(p: Scan, journal: seq<SectorStatus>, k: int)
    requires k <= |journal|
  {
    forall q | 0 <= q < k ::
      journal[q] == Unread <==> (Covered(p.zones, q) || (p.open.Some? && p.open.value.begin <= q))
  }

  lemma AppendCovers(zones: seq<Zone>, z: Zone, q: int)
    ensures Covered(zones + [z], q) <==> (Covered(zones, q) || InZone(z, q))
  {
    var a := zones + [z];
    if Covered(zones, q) {
      var i :| 0 <= i < |zones| && InZone(zones[i], q);
      assert InZone(a[i], q);
    }
    if InZone(z, q) { assert InZone(a[|zones|], q); }
  }

  lemma {:induction false} ScanKeepsShape(journal: seq<SectorStatus>, k: nat)
    requires k <= |journal|
    ensures ScanShape(ScanTo(journal, k), k)
  {
    if k > 0 {
      hide ScanByte, ScanShape;
      ScanKeepsShape(journal, k - 1);
      ByteKeepsShape(ScanTo(journal, k - 1), k - 1, journal[k - 1], Previous(journal, k - 1));
    }
  }

  lemma ByteKeepsShape(p: Scan, i: nat, status: SectorStatus, previous: SectorStatus)
    requires ScanShape(p, i)
    ensures ScanShape(ScanByte(p, i, status, previous), i + 1)
  {
  }

  lemma {:induction false} ScanKeepsCover(journal: seq<SectorStatus>, k: nat)
    requires k <= |journal|
    ensures ScanCovers(ScanTo(journal, k), journal, k)
  {
    if k > 0 {
      ScanKeepsCover(journal, k - 1);
      ScanKeepsShape(journal, k - 1);
      var p, p' := ScanTo(journal, k - 1), ScanTo(journal, k);
      assert !Covered(p.zones, k - 1);
      forall q | 0 <= q < k
        ensures journal[q] == Unread <==> (Covered(p'.zones, q) || (p'.open.Some? && p'.open.value.begin <= q))
      {
        if p'.zones != p.zones { AppendCovers(p.zones, p'.zones[|p.zones|], q); }
      }
    }
  }

  lemma {:induction false} ScanKeepsFlags(journal: seq<SectorStatus>, k: nat)
    requires k <= |journal|
    ensures var p := ScanTo(journal, k);
            && BeginFlagsMatch(p.zones, journal) && EndFlagsMatch(p.zones, journal)
            && (p.open.Some? ==> BeginFlagsMatch([p.open.value], journal))
  {
    if k > 0 {
      ScanKeepsFlags(journal, k - 1);
      ScanKeepsShape(journal, k - 1);
      ByteKeepsFlags(ScanTo(journal, k - 1), journal, k - 1);
    }
  }

  lemma ByteKeepsFlags(p: Scan, journal: seq<SectorStatus>, i: nat)
    requires i < |journal| && ScanShape(p, i)
    requires BeginFlagsMatch(p.zones, journal) && EndFlagsMatch(p.zones, journal)
    requires p.open.Some? ==> BeginFlagsMatch([p.open.value], journal)
    ensures var p' := ScanByte(p, i, journal[i], Previous(journal, i));
            && BeginFlagsMatch(p'.zones, journal) && EndFlagsMatch(p'.zones, journal)
            && (p'.open.Some? ==> BeginFlagsMatch([p'.open.value], journal))
  {
    hide ScanShape;
    assert p.open.Some? ==> [p.open.value][0] == p.open.value;
  }

  lemma {:induction false} CountAppend(a: seq<SectorStatus>, b: seq<SectorStatus>)
    ensures CountUnread(a + b) == CountUnread(a) + CountUnread(b)
  {
    if a == [] {
      assert a + b == b;
    } else {
      CountAppend(a[1..], b);
      assert (a + b)[1..] == a[1..] + b;
    }
  }

  lemma {:induction false} ScanKeepsCount(journal: seq<SectorStatus>, k: nat)
    requires k <= |journal|
    ensures var p := ScanTo(journal, k);
            && p.den == Total(p.zones)
            && p.den + (if p.open.Some? then k - p.open.value.begin else 0) == CountUnread(journal[..k])
  {
    if k > 0 {
      ScanKeepsCount(journal, k - 1);
      var p, p' := ScanTo(journal, k - 1), ScanTo(journal, k);
      assert journal[..k] == journal[..k - 1] + [journal[k - 1]];
      CountAppend(journal[..k - 1], [journal[k - 1]]);
      if p'.zones != p.zones {
        TotalAppend(p.zones, [p'.zones[|p.zones|]]);
      }
    }
  }

  lemma ParseTracks(journal: seq<SectorStatus>)
    ensures Tracks(Parse(journal).zones, journal)
  {
    var n := |journal|;
    ScanKeepsShape(journal, n);
    ScanKeepsCover(journal, n);
    var s, p := ScanTo(journal, n), Parse(journal);
    forall q | 0 <= q < n ensures journal[q] == Unread <==> Covered(p.zones, q) {
      if s.open.Some? { AppendCovers(s.zones, p.zones[|s.zones|], q); }
    }
  }

  lemma ParseFlags(journal: seq<SectorStatus>)
    ensures BeginFlagsMatch(Parse(journal).zones, journal) && EndFlagsMatch(Parse(journal).zones, journal)
  {
    ScanKeepsFlags(journal, |journal|);
    var s := ScanTo(journal, |journal|);
    assert s.open.Some? ==> [s.open.value][0] == s.open.value;
  }

  lemma ParseCounts(journal: seq<SectorStatus>)
    ensures Parse(journal).den == Total(Parse(journal).zones) == CountUnread(journal)
  {
    ScanKeepsCount(journal, |journal|);
    assert journal[..|journal|] == journal;
    var s := ScanTo(journal, |journal|);
    if s.open.Some? { TotalAppend(s.zones, [Parse(journal).zones[|s.zones|]]); }
  }

  /** Parsing is exact for every journal: the zones are the maximal Unread runs, a flag is
      set exactly when the byte beyond that border is an error, and the count is right. */
  lemma ParseExact(journal: seq<SectorStatus>)
    ensures var p := Parse(journal);
            && Tracks(p.zones, journal)
            && BeginFlagsMatch(p.zones, journal) && EndFlagsMatch(p.zones, journal)
            && p.den == Total(p.zones) == CountUnread(journal)
  {
    ParseTracks(journal);
    ParseFlags(journal);
    ParseCounts(journal);
  }

  lemma {:induction false} TotalOfExtents(a: seq<Zone>, b: seq<Zone>)
    requires SameExtents(a, b)
    ensures Total(a) == Total(b)
  {
    if a != [] { TotalOfExtents(a[1..], b[1..]); }
  }

  /** Any list that tracks a journal is, border by border, what the parser makes of it. */
  lemma LiveIsParsed(zones: seq<Zone>, journal: seq<SectorStatus>)
    requires Tracks(zones, journal)
    ensures SameExtents(zones, Parse(journal).zones)
    ensures Total(zones) == Parse(journal).den == CountUnread(journal)
  {
    ParseExact(journal);
    TracksUnique(zones, Parse(journal).zones, journal);
    TotalOfExtents(zones, Parse(journal).zones);
  }

  /** Parsing gives these zones if they track the journal and carry its flags. */
  lemma ParseIs(zones: seq<Zone>, journal: seq<SectorStatus>)
    requires Tracks(zones, journal) && BeginFlagsMatch(zones, journal) && EndFlagsMatch(zones, journal)
    ensures Parse(journal).zones == zones
  {
    ParseExact(journal);
    var p := Parse(journal).zones;
    TracksUnique(zones, p, journal);
    forall i | 0 <= i < |zones| ensures zones[i] == p[i] {
      assert zones[i].begin == p[i].begin && zones[i].end == p[i].end;
      assert zones[i].beginBad == p[i].beginBad;
      assert zones[i].endBad == p[i].endBad;
    }
  }

  /** The scheduler a copy starts from: the whole disk, or what the journal leaves. */
  function FreshSched(size: int): Sched {
    Sched([Zone(0, size, false, false)], None, false, 0)
  }

  function ResumedSched(journal: seq<SectorStatus>): Sched {
    Sched(Parse(journal).zones, None, false, 0)
  }

  /** Starting afresh and resuming from a blank journal are the same. */
  lemma FreshIsBlankResume(journal: seq<SectorStatus>)
    requires |journal| > 0 && forall k | 0 <= k < |journal| :: journal[k] == Unread
    ensures ResumedSched(journal) == FreshSched(|journal|)
    ensures Parse(journal).den == |journal|
  {
    BlankScan(journal, |journal|);
  }

  lemma {:induction false} BlankScan(journal: seq<SectorStatus>, k: nat)
    requires 0 < k <= |journal| && forall q | 0 <= q < |journal| :: journal[q] == Unread
    ensures ScanTo(journal, k) == Scan([], Some(Zone(0, 0, false, false)), 0)
  {
    if k > 1 { BlankScan(journal, k - 1); } else { assert ScanTo(journal, 0) == Scan([], None, 0); }
  }
}
