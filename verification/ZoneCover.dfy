/** How a zone list relates to the journal: which bytes it says are unread. */
module ZoneCover {
  import opened CopyTypes
  import opened ReadStrategies

  predicate InZone(z: Zone, k: int) {
    z.begin <= k < z.end
  }

  ghost predicate Covered(zones: seq<Zone>, k: int) {
    exists i :: 0 <= i < |zones| && InZone(zones[i], k)
  }

  /** The zones cover exactly the Unread bytes. */
  ghost predicate Exact(zones: seq<Zone>, journal: seq<SectorStatus>) {
    && Within(zones, |journal|)
    && (forall k | 0 <= k < |journal| :: journal[k] == Unread <==> Covered(zones, k))
  }

  /** The zones are exactly the maximal runs of Unread bytes, in order. */
  ghost predicate Tracks(zones: seq<Zone>, journal: seq<SectorStatus>) {
    Gapped(zones) && Exact(zones, journal)
  }

  ghost predicate SameExtents(a: seq<Zone>, b: seq<Zone>) {
    |a| == |b| && forall i | 0 <= i < |a| :: a[i].begin == b[i].begin && a[i].end == b[i].end
  }

  function Total(zones: seq<Zone>): int {
    if zones == [] then 0 else Length(zones[0]) + Total(zones[1..])
  }

  function CountUnread(journal: seq<SectorStatus>): nat {
    if journal == [] then 0 else (if journal[0] == Unread then 1 else 0) + CountUnread(journal[1..])
  }

  /** The journal after a block has been written with one status. */
  function Mark(journal: seq<SectorStatus>, t: Task, status: SectorStatus): (r: seq<SectorStatus>)
    requires 0 <= t.lba && 0 <= t.sectors && t.lba + t.sectors <= |journal|
    ensures |r| == |journal|
    ensures forall k | 0 <= k < |journal| :: r[k] == if InTask(t, k) then status else journal[k]
  {
    journal[..t.lba] + seq(t.sectors, _ => status) + journal[t.lba + t.sectors..]
  }

  // ----- the maximal runs are unique -----

  /** If two lists track one journal, the i-th zones agree once all earlier ones do. */
  lemma NextZoneAgrees(a: seq<Zone>, b: seq<Zone>, journal: seq<SectorStatus>, i: nat)
    requires Tracks(a, journal) && Tracks(b, journal)
    requires i < |a| && i <= |b|
    requires forall j | 0 <= j < i :: a[j].begin == b[j].begin && a[j].end == b[j].end
    ensures i < |b| && b[i].begin <= a[i].begin
  {
    assert InZone(a[i], a[i].begin);
    assert Covered(a, a[i].begin) && journal[a[i].begin] == Unread;
    var m :| 0 <= m < |b| && InZone(b[m], a[i].begin);
    assert m >= i;
  }

  lemma EndIsRead(zones: seq<Zone>, journal: seq<SectorStatus>, i: nat)
    requires Tracks(zones, journal) && i < |zones| && zones[i].end < |journal|
    ensures journal[zones[i].end] != Unread
  {
    forall m | 0 <= m < |zones| ensures !InZone(zones[m], zones[i].end) {
      assert m == i || (if m < i then zones[m].end < zones[i].begin else zones[i].end < zones[m].begin);
    }
  }

  lemma BeforeIsRead(zones: seq<Zone>, journal: seq<SectorStatus>, i: nat)
    requires Tracks(zones, journal) && i < |zones| && zones[i].begin > 0
    ensures journal[zones[i].begin - 1] != Unread
  {
    forall m | 0 <= m < |zones| ensures !InZone(zones[m], zones[i].begin - 1) {
      assert m == i || (if m < i then zones[m].end < zones[i].begin else zones[i].end < zones[m].begin);
    }
  }

  lemma UnreadZone(zones: seq<Zone>, journal: seq<SectorStatus>, k: int) returns (i: nat)
    requires Exact(zones, journal) && 0 <= k < |journal| && journal[k] == Unread
    ensures i < |zones| && InZone(zones[i], k)
  {
    assert Covered(zones, k);
    i :| 0 <= i < |zones| && InZone(zones[i], k);
  }

  lemma ZoneEndAgrees(a: seq<Zone>, b: seq<Zone>, journal: seq<SectorStatus>, i: nat)
    requires Tracks(a, journal) && Tracks(b, journal)
    requires i < |a| && i < |b| && a[i].begin == b[i].begin
    ensures b[i].end <= a[i].end
  {
    if a[i].end < |journal| {
      EndIsRead(a, journal, i);
      assert !InZone(b[i], a[i].end);
    }
  }

  lemma {:induction false} PrefixAgrees(a: seq<Zone>, b: seq<Zone>, journal: seq<SectorStatus>, n: nat)
    requires Tracks(a, journal) && Tracks(b, journal) && n <= |a|
    ensures n <= |b| && forall j | 0 <= j < n :: a[j].begin == b[j].begin && a[j].end == b[j].end
  {
    if n > 0 {
      PrefixAgrees(a, b, journal, n - 1);
      NextZoneAgrees(a, b, journal, n - 1);
      NextZoneAgrees(b, a, journal, n - 1);
      ZoneEndAgrees(a, b, journal, n - 1);
      ZoneEndAgrees(b, a, journal, n - 1);
    }
  }

  /** A journal determines the extents of the zones that track it. */
  lemma TracksUnique(a: seq<Zone>, b: seq<Zone>, journal: seq<SectorStatus>)
    requires Tracks(a, journal) && Tracks(b, journal)
    ensures SameExtents(a, b)
  {
    PrefixAgrees(a, b, journal, |a|);
    PrefixAgrees(b, a, journal, |b|);
  }

  // ----- sums -----

  lemma {:induction false} TotalAppend(a: seq<Zone>, b: seq<Zone>)
    ensures Total(a + b) == Total(a) + Total(b)
  {
    if a == [] {
      assert a + b == b;
    } else {
      TotalAppend(a[1..], b);
      assert (a + b)[1..] == a[1..] + b;
    }
  }

  lemma TotalReplace(zones: seq<Zone>, i: nat, mid: seq<Zone>)
    requires i < |zones|
    ensures Total(zones[..i] + mid + zones[i + 1..]) == Total(zones) - Length(zones[i]) + Total(mid)
  {
    var front, back := zones[..i], zones[i + 1..];
    assert zones == front + [zones[i]] + back;
    TotalAppend(front + [zones[i]], back);
    TotalAppend(front, [zones[i]]);
    TotalAppend(front + mid, back);
    TotalAppend(front, mid);
  }

  lemma {:induction false} TotalNonNegative(zones: seq<Zone>)
    requires forall i | 0 <= i < |zones| :: zones[i].begin < zones[i].end
    ensures Total(zones) >= |zones|
  {
    if zones != [] { TotalNonNegative(zones[1..]); }
  }

  // ----- splitting and consuming -----

  /** A split inside a zone changes neither the cover nor the total. */
  lemma SplitCovers(zones: seq<Zone>, i: nat, at: int, k: int)
    requires i < |zones| && zones[i].begin < at < zones[i].end
    ensures Covered(SplitZone(zones, i, at), k) <==> Covered(zones, k)
  {
    var s := SplitZone(zones, i, at);
    if Covered(s, k) {
      var m :| 0 <= m < |s| && InZone(s[m], k);
      var w := if m <= i then m else m - 1;
      assert InZone(zones[w], k);
    }
    if Covered(zones, k) {
      var m :| 0 <= m < |zones| && InZone(zones[m], k);
      var w := if m < i || (m == i && k < at) then m else m + 1;
      assert InZone(s[w], k);
    }
  }

  lemma SplitAt(zones: seq<Zone>, i: nat, at: int)
    requires i < |zones|
    ensures var s := SplitZone(zones, i, at);
            && |s| == |zones| + 1
            && forall a | 0 <= a < |s| ::
                 s[a] == if a < i then zones[a] else if a == i then Zone(zones[i].begin, at, zones[i].beginBad, false)
                         else if a == i + 1 then Zone(at, zones[i].end, false, zones[i].endBad) else zones[a - 1]
  {
  }

  lemma SplitSorted(zones: seq<Zone>, i: nat, at: int)
    requires Gapped(zones) && i < |zones| && zones[i].begin < at < zones[i].end
    ensures Sorted(SplitZone(zones, i, at))
    ensures var s := SplitZone(zones, i, at);
            forall a, b | 0 <= a < b < |s| :: s[a].end < s[b].begin || (a == i && b == i + 1)
  {
    SplitAt(zones, i, at);
    var s := SplitZone(zones, i, at);
    forall a, b | 0 <= a < b < |s| ensures s[a].end < s[b].begin || (a == i && b == i + 1 && s[a].end == s[b].begin) {
      var oa, ob := if a <= i then a else a - 1, if b <= i then b else b - 1;
      if oa != ob { assert zones[oa].end < zones[ob].begin; }
    }
  }

  lemma SplitTotal(zones: seq<Zone>, i: nat, at: int)
    requires i < |zones|
    ensures Total(SplitZone(zones, i, at)) == Total(zones)
  {
    var z := zones[i];
    var mid := [Zone(z.begin, at, z.beginBad, false), Zone(at, z.end, false, z.endBad)];
    TotalReplace(zones, i, mid);
    assert mid[1..] == [mid[1]];
    assert Total(mid) == Length(mid[0]) + Total(mid[1..]);
  }

  /** Zones may touch only at the border the current zone is about to be read from. */
  ghost predicate Near(s: Sched) {
    && s.current.Some? && s.current.value < |s.zones|
    && Sorted(s.zones)
    && (forall a, b | 0 <= a < b < |s.zones| ::
          s.zones[a].end < s.zones[b].begin || (if s.reverse then a else b) == s.current.value)
  }

  ghost predicate Apart(zones: seq<Zone>, a: nat, b: nat)
    requires a < |zones| && b < |zones|
  {
    zones[a].end < zones[b].begin
  }

  lemma TaskInZone(s: Sched)
    requires Near(s)
    ensures s.current.Some? && s.current.value < |s.zones|
    ensures var t, z := Proceed(s), s.zones[s.current.value];
            && 0 < t.sectors <= SECTORS_AT_ONCE && t.sectors <= Length(z)
            && 0 <= z.begin <= t.lba && t.lba + t.sectors <= z.end
            && (if s.reverse then t.lba + t.sectors == z.end else t.lba == z.begin)
  {
  }

  lemma WithoutAt(zones: seq<Zone>, i: nat)
    requires i < |zones|
    ensures |Without(zones, i)| == |zones| - 1
    ensures forall j | 0 <= j < |zones| - 1 :: Without(zones, i)[j] == if j < i then zones[j] else zones[j + 1]
  {
  }

  lemma Disjoint(zones: seq<Zone>, i: nat, w: nat, k: int)
    requires Sorted(zones) && i < |zones| && w < |zones| && w != i && InZone(zones[w], k)
    ensures !InZone(zones[i], k)
  {
    assert if w < i then zones[w].end <= zones[i].begin else zones[i].end <= zones[w].begin;
  }

  lemma RemoveCovers(zones: seq<Zone>, i: nat, k: int)
    requires Sorted(zones) && i < |zones|
    ensures Covered(Without(zones, i), k) <==> (Covered(zones, k) && !InZone(zones[i], k))
  {
    hide Sorted;
    var s' := Without(zones, i);
    WithoutAt(zones, i);
    if Covered(s', k) {
      var m :| 0 <= m < |s'| && InZone(s'[m], k);
      var w := if m >= i then m + 1 else m;
      assert InZone(zones[w], k);
      Disjoint(zones, i, w, k);
    }
    if Covered(zones, k) && !InZone(zones[i], k) {
      var m :| 0 <= m < |zones| && InZone(zones[m], k);
      var w := if m > i then m - 1 else m;
      assert InZone(s'[w], k);
    }
  }

  lemma UpdateCovers(zones: seq<Zone>, i: nat, z: Zone, k: int)
    requires Sorted(zones) && i < |zones|
    requires zones[i].begin <= z.begin && z.end <= zones[i].end
    ensures Covered(zones[i := z], k) <==> (Covered(zones, k) && (InZone(zones[i], k) ==> InZone(z, k)))
  {
    hide Sorted;
    var s' := zones[i := z];
    if Covered(s', k) {
      var m :| 0 <= m < |s'| && InZone(s'[m], k);
      assert InZone(zones[m], k);
      if m != i { Disjoint(zones, i, m, k); }
    }
    if Covered(zones, k) && (InZone(zones[i], k) ==> InZone(z, k)) {
      var m :| 0 <= m < |zones| && InZone(zones[m], k);
      assert InZone(s'[m], k);
    }
  }

  lemma ConsumeCovers(s: Sched, failed: bool, k: int)
    requires Near(s)
    ensures Covered(Consume(s, Proceed(s).sectors, failed).zones, k) <==>
            (Covered(s.zones, k) && !InTask(Proceed(s), k))
  {
    var t, i := Proceed(s), s.current.value;
    var z := Shrink(s.zones[i], s.reverse, t.sectors, failed);
    TaskInZone(s);
    if z.begin == z.end {
      RemoveCovers(s.zones, i, k);
    } else {
      UpdateCovers(s.zones, i, z, k);
    }
    if InTask(t, k) { assert InZone(s.zones[i], k); }
  }

  lemma RemoveGaps(zones: seq<Zone>, i: nat)
    requires Sorted(zones) && i < |zones|
    requires forall a, b | 0 <= a < b < |zones| && a != i && b != i :: Apart(zones, a, b)
    ensures Gapped(Without(zones, i))
  {
    var s' := Without(zones, i);
    WithoutAt(zones, i);
    forall a, b | 0 <= a < b < |s'| ensures s'[a].end < s'[b].begin {
      assert Apart(zones, if a < i then a else a + 1, if b < i then b else b + 1);
    }
  }

  /** Cutting something off the zone whose border others may touch separates them. */
  lemma UpdateGaps(zones: seq<Zone>, i: nat, z: Zone, reverse: bool)
    requires Sorted(zones) && i < |zones| && z.begin < z.end
    requires if reverse then z.begin == zones[i].begin && z.end < zones[i].end
             else zones[i].begin < z.begin && z.end == zones[i].end
    requires forall a, b | 0 <= a < b < |zones| :: Apart(zones, a, b) || (if reverse then a else b) == i
    ensures Gapped(zones[i := z])
  {
    var s' := zones[i := z];
    forall a, b | 0 <= a < b < |s'| ensures s'[a].end < s'[b].begin {
      assert Apart(zones, a, b) || (if reverse then a else b) == i;
      assert zones[a].end <= zones[b].begin;
    }
  }

  lemma NearApart(s: Sched)
    requires Near(s)
    ensures Sorted(s.zones) && s.current.Some? && s.current.value < |s.zones|
    ensures forall a, b | 0 <= a < b < |s.zones| ::
              Apart(s.zones, a, b) || (if s.reverse then a else b) == s.current.value
  {
  }

  lemma ConsumeGaps(s: Sched, failed: bool)
    requires Near(s)
    ensures Gapped(Consume(s, Proceed(s).sectors, failed).zones)
  {
    hide Near, Sorted, Gapped, Apart;
    NearApart(s);
    TaskInZone(s);
    var t, i := Proceed(s), s.current.value;
    var z := Shrink(s.zones[i], s.reverse, t.sectors, failed);
    if z.begin == z.end {
      RemoveGaps(s.zones, i);
    } else {
      UpdateGaps(s.zones, i, z, s.reverse);
    }
  }

  lemma ConsumeTotal(s: Sched, n: int, failed: bool)
    requires s.current.Some? && s.current.value < |s.zones|
    ensures Total(Consume(s, n, failed).zones) == Total(s.zones) - n
  {
    var i := s.current.value;
    var z := Shrink(s.zones[i], s.reverse, n, failed);
    if z.begin == z.end {
      TotalReplace(s.zones, i, []);
      assert s.zones[..i] + [] + s.zones[i + 1..] == Without(s.zones, i);
    } else {
      TotalReplace(s.zones, i, [z]);
      assert s.zones[i := z] == s.zones[..i] + [z] + s.zones[i + 1..];
    }
  }

  /** Consuming a task and marking its bytes keeps the zones equal to the unread runs. */
  lemma ConsumeTracks(s: Sched, failed: bool, journal: seq<SectorStatus>, status: SectorStatus)
    requires Near(s) && Exact(s.zones, journal) && status != Unread
    ensures var t := Proceed(s);
            && 0 <= t.lba && 0 < t.sectors <= SECTORS_AT_ONCE && t.lba + t.sectors <= |journal|
            && (forall k | InTask(t, k) :: journal[k] == Unread)
            && Tracks(Consume(s, t.sectors, failed).zones, Mark(journal, t, status))
  {
    ConsumeGaps(s, failed);
    TaskInZone(s);
    var t := Proceed(s);
    var i := s.current.value;
    var s' := Consume(s, t.sectors, failed).zones;
    var journal' := Mark(journal, t, status);
    forall k | InTask(t, k) ensures journal[k] == Unread {
      assert InZone(s.zones[i], k);
      assert Covered(s.zones, k);
    }
    forall k | 0 <= k < |journal'| ensures journal'[k] == Unread <==> Covered(s', k) {
      ConsumeCovers(s, failed, k);
    }
  }
}
