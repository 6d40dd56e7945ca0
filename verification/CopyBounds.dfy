/** How often zones are split and how many blocks a run can take. */
module CopyBounds {
  import opened CopyTypes
  import opened ReadStrategies
  import opened ZoneCover
  import opened CopyRun

  /** The shortest piece smart's split can leave. */
  const SMALLEST_HALF := 499745

  /** The shortest left piece skipfail's split can leave. */
  function SmallestSkip(c: Config): int {
    (c.skipBlocks - 1) * SECTORS_AT_ONCE + 1
  }

  /** What a zone of `n` sectors can still pay for splits, in the units of `Cost`. */
  function Weight(c: Config, n: int): int {
    match c.strategy
    case Plain => 0
    case Smart => if n / SMALLEST_HALF > 1 then n / SMALLEST_HALF - 1 else 0
    case SmartNoReverse => if n / SMALLEST_HALF > 1 then n / SMALLEST_HALF - 1 else 0
    case Skipfail => if n > c.skipBlocks * SECTORS_AT_ONCE then n else 0
    case SkipfailNoReverse => if n > c.skipBlocks * SECTORS_AT_ONCE then n else 0
  }

  predicate IsSkipfail(c: Config) {
    c.strategy == Skipfail || c.strategy == SkipfailNoReverse
  }

  /** What one split costs: smart counts splits, skipfail the sectors it leaves behind for good. */
  function Cost(c: Config): int {
    if IsSkipfail(c) then SmallestSkip(c) else 1
  }

  function Room(c: Config, zones: seq<Zone>): int
  {
    if zones == [] then 0 else Weight(c, Length(zones[0])) + Room(c, zones[1..])
  }

  // ----- arithmetic of one zone -----

  lemma WeightMonotone(c: Config, a: int, b: int)
    requires ConfigOk(c) && 0 <= a <= b
    ensures 0 <= Weight(c, a) <= Weight(c, b)
  {
  }

  lemma SmartHalvesWeigh(c: Config, a: int, b: int)
    requires IsSmart(c) && a >= SMALLEST_HALF && b >= SMALLEST_HALF
    ensures Weight(c, a) + Weight(c, b) + 1 <= Weight(c, a + b)
  {
  }

  lemma SkipPiecesWeigh(c: Config, a: int, b: int)
    requires ConfigOk(c) && IsSkipfail(c)
    requires SmallestSkip(c) <= a <= c.skipBlocks * SECTORS_AT_ONCE < a + b && 0 < b
    ensures Weight(c, a) + Weight(c, b) + SmallestSkip(c) <= Weight(c, a + b)
  {
  }

  lemma ProductSign(d: int, m: int)
    requires d >= 0 && m >= 0
    ensures m * d >= 0
  {
  }

  lemma ProductOrder(x: int, y: int, m: int)
    requires m >= 0 && m * x < m * y
    ensures x < y
  {
    if x >= y {
      Distribute(m, y, x - y);
      ProductSign(x - y, m);
    }
  }

  lemma QuotientBound(q: int, a: int, m: int)
    requires m > 0 && m * q <= a
    ensures q <= a / m
  {
    var r := a / m;
    assert a < m * r + m;
    Distribute(m, r, 1);
    ProductOrder(q, r + 1, m);
  }

  // ----- lists -----

  lemma {:induction false} RoomAppend(c: Config, a: seq<Zone>, b: seq<Zone>)
    requires ConfigOk(c)
    ensures Room(c, a + b) == Room(c, a) + Room(c, b)
  {
    if a == [] {
      assert a + b == b;
    } else {
      RoomAppend(c, a[1..], b);
      assert (a + b)[1..] == a[1..] + b;
    }
  }

  lemma RoomReplace(c: Config, zones: seq<Zone>, i: nat, mid: seq<Zone>)
    requires ConfigOk(c) && i < |zones|
    ensures Room(c, zones[..i] + mid + zones[i + 1..]) == Room(c, zones) - Weight(c, Length(zones[i])) + Room(c, mid)
  {
    var front, back := zones[..i], zones[i + 1..];
    assert zones == front + [zones[i]] + back;
    RoomAppend(c, front + [zones[i]], back);
    RoomAppend(c, front, [zones[i]]);
    RoomAppend(c, front + mid, back);
    RoomAppend(c, front, mid);
  }

  lemma SplitRoom(c: Config, zones: seq<Zone>, i: nat, at: int)
    requires ConfigOk(c) && i < |zones|
    requires var z := zones[i];
             Weight(c, at - z.begin) + Weight(c, z.end - at) + Cost(c) <= Weight(c, Length(z))
    ensures Room(c, SplitZone(zones, i, at)) + Cost(c) <= Room(c, zones)
  {
    var z := zones[i];
    var mid := [Zone(z.begin, at, z.beginBad, false), Zone(at, z.end, false, z.endBad)];
    RoomReplace(c, zones, i, mid);
    RoomAppend(c, [mid[0]], [mid[1]]);
    assert mid == [mid[0]] + [mid[1]];
  }

  lemma ConsumeRoom(c: Config, s: Sched, failed: bool)
    requires ConfigOk(c) && Near(s)
    ensures Room(c, Consume(s, Proceed(s).sectors, failed).zones) <= Room(c, s.zones)
  {
    TaskInZone(s);
    var n, i := Proceed(s).sectors, s.current.value;
    var z := Shrink(s.zones[i], s.reverse, n, failed);
    WeightMonotone(c, Length(z), Length(s.zones[i]));
    if z.begin == z.end {
      RoomReplace(c, s.zones, i, []);
      assert s.zones[..i] + [] + s.zones[i + 1..] == Without(s.zones, i);
    } else {
      RoomReplace(c, s.zones, i, [z]);
      assert s.zones[i := z] == s.zones[..i] + [z] + s.zones[i + 1..];
    }
  }

  lemma {:induction false} RoomNonNegative(c: Config, zones: seq<Zone>)
    requires ConfigOk(c) && forall i | 0 <= i < |zones| :: zones[i].begin < zones[i].end
    ensures Room(c, zones) >= 0
  {
    if zones != [] {
      WeightMonotone(c, 0, Length(zones[0]));
      RoomNonNegative(c, zones[1..]);
    }
  }

  lemma {:induction false} SkipRoomBound(c: Config, zones: seq<Zone>)
    requires ConfigOk(c) && IsSkipfail(c)
    requires forall i | 0 <= i < |zones| :: zones[i].begin < zones[i].end
    ensures Room(c, zones) <= Total(zones)
  {
    if zones != [] { SkipRoomBound(c, zones[1..]); }
  }

  // ----- one step -----

  predicate SplitsNow(c: Config, s: Sched)
    requires |s.zones| > 0 && CursorOk(s)
  {
    Choose(c, s).Some? && |Choose(c, s).value.zones| > |s.zones|
  }

  function Bit(b: bool): nat {
    if b then 1 else 0
  }

  lemma SmartIsChosen(c: Config, s: Sched)
    requires IsSmart(c) && CursorOk(s) && |s.zones| > 0
    ensures Choose(c, s) == SmartChoose(c, s)
  {
    hide SmartChoose;
  }

  lemma SkipfailIsChosen(c: Config, s: Sched)
    requires IsSkipfail(c) && CursorOk(s) && |s.zones| > 0
    ensures Choose(c, s) == SkipfailChoose(c, s)
    ensures SkipfailChoose(c, s) == None ==> AllStuck(c, s.zones) && s.current == None
  {
  }

  /** Where smart's `get_task` splits, when it does. */
  lemma SmartPlace(c: Config, s: Sched) returns (k: nat)
    requires IsSmart(c) && CursorOk(s) && |s.zones| > 0
    requires SmartChoose(c, s).Some? && SmartChoose(c, s).value.zones != s.zones
    ensures k < |s.zones| && MaySplit(s.zones, k)
    ensures SmartChoose(c, s).value.zones == SplitZone(s.zones, k, MidPoint(s.zones[k]))
  {
    hide FirstLive, LargestOf;
    k := LargestOf(s.zones, |s.zones|);
  }

  /** Where skipfail's `get_task` splits, when it does. */
  lemma SkipfailPlace(c: Config, s: Sched) returns (i: nat)
    requires IsSkipfail(c) && CursorOk(s) && |s.zones| > 0
    requires SkipfailChoose(c, s).Some? && SkipfailChoose(c, s).value.zones != s.zones
    ensures i < |s.zones| && Length(s.zones[i]) > c.skipBlocks * SECTORS_AT_ONCE && !Stuck(c, s.zones, i)
    ensures SkipfailChoose(c, s).value.zones == SplitZone(s.zones, i, SkipPoint(c, s.zones[i]))
  {
    hide FirstLive;
    i := FirstLive(c, s.zones, 0);
  }

  lemma SplitLength(zones: seq<Zone>, i: nat, at: int)
    requires i < |zones|
    ensures |SplitZone(zones, i, at)| == |zones| + 1
  {
  }

  /** A split uses up room; nothing else `get_task` does touches the list. */
  lemma ChooseRoom(c: Config, s: Sched)
    requires ConfigOk(c) && CursorOk(s) && |s.zones| > 0 && Gapped(s.zones)
    requires Choose(c, s).Some?
    ensures var s' := Choose(c, s).value;
            && |s'.zones| == |s.zones| + Bit(SplitsNow(c, s))
            && Room(c, s'.zones) + Cost(c) * Bit(SplitsNow(c, s)) <= Room(c, s.zones)
  {
    hide SmartChoose, SkipfailChoose, SplitZone, Room, MidPoint, SkipPoint;
    var s' := Choose(c, s).value;
    if s'.zones != s.zones {
      if IsSmart(c) {
        var k := SmartPlace(c, s);
        var z := s.zones[k];
        MidPointInside(z);
        SmartHalvesWeigh(c, MidPoint(z) - z.begin, z.end - MidPoint(z));
        SplitRoom(c, s.zones, k, MidPoint(z));
        SplitLength(s.zones, k, MidPoint(z));
      } else {
        var i := SkipfailPlace(c, s);
        var z := s.zones[i];
        SkipPointInside(c, z);
        SkipPiecesWeigh(c, SkipPoint(c, z) - z.begin, z.end - SkipPoint(c, z));
        SplitRoom(c, s.zones, i, SkipPoint(c, z));
        SplitLength(s.zones, i, SkipPoint(c, z));
      }
    }
  }

  /** A block of fewer than 256 sectors finishes its zone. */
  lemma ShortTaskRemoves(s: Sched, failed: bool)
    requires Near(s)
    ensures var t := Proceed(s); var zones := Consume(s, t.sectors, failed).zones;
            && |s.zones| - 1 <= |zones| <= |s.zones|
            && (|zones| == |s.zones| ==> t.sectors == SECTORS_AT_ONCE)
  {
    TaskInZone(s);
  }

  /** How one completed block moves the quantities the bounds are made of. */
  lemma StepCounts(c: Config, s: Copy, o: Outcome)
    requires Valid(c, s) && s.num < s.den && Step(c, s, o).Done?
    ensures |s.sched.zones| > 0
    ensures var s', split := Step(c, s, o).next, Bit(SplitsNow(c, s.sched));
            var gone := |s.sched.zones| + split - |s'.sched.zones|;
            && 0 <= gone <= 1
            && Room(c, s'.sched.zones) + Cost(c) * split <= Room(c, s.sched.zones)
            && SECTORS_AT_ONCE * (1 - gone) <= Total(s.sched.zones) - Total(s'.sched.zones)
  {
    hide Choose, UseResults;
    TotalNonNegative(s.sched.zones);
    var s1 := Choose(c, s.sched).value;
    ProcessOk(c, s, o);
    ChooseRoom(c, s.sched);
    ConsumeRoom(c, s1, BlockFailed(o));
    ShortTaskRemoves(s1, BlockFailed(o));
    ModeKept(c, s.sched, Proceed(s1).sectors, BlockFailed(o));
  }

  // ----- whole runs -----

  lemma HasZones(c: Config, s: Copy)
    requires Valid(c, s) && s.num < s.den
    ensures |s.sched.zones| > 0
  {
    TotalNonNegative(s.sched.zones);
  }

  /** How many splits happen on the way. */
  function Splits(c: Config, s: Copy, os: seq<Outcome>): nat
    requires Valid(c, s)
    decreases |os|
  {
    if s.num >= s.den || os == [] then 0
    else
      HasZones(c, s);
      var r := Step(c, s, os[0]);
      if r.Refused? then 0
      else Bit(SplitsNow(c, s.sched)) + if r.abort then 0 else Splits(c, r.next, os[1..])
  }

  lemma Distribute(m: int, x: int, y: int)
    ensures m * (x + y) == m * x + m * y
  {
  }

  lemma {:induction false} SplitsPaid(c: Config, s: Copy, os: seq<Outcome>)
    requires Valid(c, s)
    ensures Cost(c) * Splits(c, s, os) <= Room(c, s.sched.zones)
    decreases |os|
  {
    hide Step;
    RoomNonNegative(c, s.sched.zones);
    if s.num < s.den && os != [] {
      HasZones(c, s);
      var r := Step(c, s, os[0]);
      if r.Done? {
        StepCounts(c, s, os[0]);
        if r.abort {
          RoomNonNegative(c, r.next.sched.zones);
        } else {
          SplitsPaid(c, r.next, os[1..]);
          Distribute(Cost(c), Bit(SplitsNow(c, s.sched)), Splits(c, r.next, os[1..]));
        }
      }
    }
  }

  lemma {:induction false} BlocksCounted(c: Config, s: Copy, os: seq<Outcome>)
    requires Valid(c, s)
    ensures SECTORS_AT_ONCE * (|Run(c, s, os).tasks| - |s.sched.zones| - Splits(c, s, os)) <= Total(s.sched.zones)
    decreases |os|
  {
    hide Step;
    TotalNonNegative(s.sched.zones);
    if s.num < s.den && os != [] && Step(c, s, os[0]).Done? {
      var r := Step(c, s, os[0]);
      StepCounts(c, s, os[0]);
      TotalNonNegative(r.next.sched.zones);
      if !r.abort { BlocksCounted(c, r.next, os[1..]); }
    }
  }

  /** The most splits any run from these zones can make. */
  function MaxSplits(c: Config, zones: seq<Zone>): int
    requires ConfigOk(c)
  {
    if IsSkipfail(c) then Total(zones) / SmallestSkip(c) else Room(c, zones)
  }

  /** Splits of any run, over every pattern of read and write errors, are bounded by the
      zones it starts from. */
  lemma SplitsBounded(c: Config, s: Copy, os: seq<Outcome>)
    requires Valid(c, s)
    ensures Splits(c, s, os) <= MaxSplits(c, s.sched.zones)
  {
    hide Splits;
    SplitsPaid(c, s, os);
    if IsSkipfail(c) {
      SkipRoomBound(c, s.sched.zones);
      var n, m := Splits(c, s, os), SmallestSkip(c);
      assert m * n <= Total(s.sched.zones);
      QuotientBound(n, Total(s.sched.zones), m);
    }
  }

  /** So is the number of blocks. */
  lemma BlocksBounded(c: Config, s: Copy, os: seq<Outcome>)
    requires Valid(c, s)
    ensures |Run(c, s, os).tasks| <= Total(s.sched.zones) / SECTORS_AT_ONCE + |s.sched.zones| + Splits(c, s, os)
  {
    hide Run;
    BlocksCounted(c, s, os);
    QuotientBound(|Run(c, s, os).tasks| - |s.sched.zones| - Splits(c, s, os), Total(s.sched.zones), SECTORS_AT_ONCE);
  }

  /** The longest a run can get. */
  function MaxBlocks(c: Config, zones: seq<Zone>): int
    requires ConfigOk(c)
  {
    Total(zones) / SECTORS_AT_ONCE + |zones| + MaxSplits(c, zones)
  }

  /** A run that is given more outcomes than the bound does not end by running out of them. */
  lemma {:induction false} NotInterrupted(c: Config, s: Copy, os: seq<Outcome>)
    requires Valid(c, s)
    ensures Run(c, s, os).ending == Interrupted ==> |Run(c, s, os).tasks| == |os|
    decreases |os|
  {
    hide Step;
    if s.num < s.den && os != [] && Step(c, s, os[0]).Done? && !Step(c, s, os[0]).abort {
      NotInterrupted(c, Step(c, s, os[0]).next, os[1..]);
    }
  }

  lemma RunTerminates(c: Config, s: Copy, os: seq<Outcome>)
    requires Valid(c, s) && |os| > MaxBlocks(c, s.sched.zones)
    ensures Run(c, s, os).ending != Interrupted
  {
    hide Run, Splits;
    NotInterrupted(c, s, os);
    BlocksBounded(c, s, os);
    SplitsBounded(c, s, os);
  }

  /** What smart's zones can pay for: one jump less than the times the shortest half fits into each. */
  function Halvings(zones: seq<Zone>): int {
    if zones == [] then 0
    else (if Length(zones[0]) / 499745 > 1 then Length(zones[0]) / 499745 - 1 else 0) + Halvings(zones[1..])
  }

  lemma {:induction false} RoomIsHalvings(c: Config, zones: seq<Zone>)
    requires IsSmart(c)
    ensures Room(c, zones) == Halvings(zones)
  {
    if zones != [] { RoomIsHalvings(c, zones[1..]); }
  }

  lemma {:induction false} PlainHasNoRoom(c: Config, zones: seq<Zone>)
    requires c.strategy == Plain
    ensures Room(c, zones) == 0
  {
    if zones != [] { PlainHasNoRoom(c, zones[1..]); }
  }

  /** The length of any run in numbers: a block for every 256 unread sectors, one for every zone, and one
      for every jump, of which there are none for plain, no more than the halvings for smart, and for
      skipfail one in (skip_blocks - 1) * 256 + 1 sectors. */
  lemma BlocksOutright(c: Config, s: Copy, os: seq<Outcome>)
    requires Valid(c, s)
    ensures var zones, unread := s.sched.zones, Total(s.sched.zones);
            var jumps := match c.strategy
                         case Plain => 0
                         case Smart => Halvings(zones)
                         case SmartNoReverse => Halvings(zones)
                         case Skipfail => unread / ((c.skipBlocks - 1) * 256 + 1)
                         case SkipfailNoReverse => unread / ((c.skipBlocks - 1) * 256 + 1);
            && |Run(c, s, os).tasks| <= unread / 256 + |zones| + jumps
            && (|os| > unread / 256 + |zones| + jumps ==> Run(c, s, os).ending != Interrupted)
  {
    hide Run, Splits, Room;
    BlocksBounded(c, s, os);
    SplitsBounded(c, s, os);
    NotInterrupted(c, s, os);
    if IsSmart(c) { RoomIsHalvings(c, s.sched.zones); }
    if c.strategy == Plain { PlainHasNoRoom(c, s.sched.zones); }
  }
}
