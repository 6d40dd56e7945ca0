/** The five read strategies as functions on the scheduler state. */
module ReadStrategies {
  import opened CopyTypes

  // ----- well-formed zone lists -----

  ghost predicate Sorted(zones: seq<Zone>) {
    && (forall i | 0 <= i < |zones| :: 0 <= zones[i].begin < zones[i].end)
    && (forall i, j | 0 <= i < j < |zones| :: zones[i].end <= zones[j].begin)
  }

  /** Sorted, and no two zones touch. */
  ghost predicate Gapped(zones: seq<Zone>) {
    && Sorted(zones)
    && (forall i, j | 0 <= i < j < |zones| :: zones[i].end < zones[j].begin)
  }

  ghost predicate Within(zones: seq<Zone>, size: int) {
    forall i | 0 <= i < |zones| :: zones[i].end <= size
  }

  predicate CursorOk(s: Sched) {
    s.current.Some? ==> s.current.value < |s.zones|
  }

  // ----- choosing a task -----

  /** The block at the border of the current zone that reading proceeds from. */
  function Proceed(s: Sched): Task
    requires s.current.Some? && s.current.value < |s.zones|
  {
    var z := s.zones[s.current.value];
    var n := if Length(z) < SECTORS_AT_ONCE then Length(z) else SECTORS_AT_ONCE;
    Task(if s.reverse then z.end - n else z.begin, n)
  }

  /** The strategy finds nothing to do at zone `i`. */
  predicate Stuck(c: Config, zones: seq<Zone>, i: nat)
    requires i < |zones|
  {
    var z := zones[i];
    z.beginBad &&
    match c.strategy
    case Plain => false
    case Smart => z.endBad
    case SmartNoReverse => true
    case Skipfail => (z.endBad || i + 1 == |zones|) && Length(z) <= c.skipBlocks * SECTORS_AT_ONCE
    case SkipfailNoReverse => Length(z) <= c.skipBlocks * SECTORS_AT_ONCE
  }

  /** First position from `i` on where the strategy can work. */
  function FirstLive(c: Config, zones: seq<Zone>, i: nat): (r: nat)
    requires i <= |zones|
    ensures i <= r <= |zones|
    ensures forall j | i <= j < r :: Stuck(c, zones, j)
    ensures r < |zones| ==> !Stuck(c, zones, r)
    decreases |zones| - i
  {
    if i == |zones| || !Stuck(c, zones, i) then i else FirstLive(c, zones, i + 1)
  }

  /** First of the longest zones among the first `n`. */
  function LargestOf(zones: seq<Zone>, n: nat): (r: nat)
    requires 1 <= n <= |zones|
    ensures r < n
    ensures forall j | 0 <= j < n :: Length(zones[j]) <= Length(zones[r])
    ensures forall j | 0 <= j < r :: Length(zones[j]) < Length(zones[r])
  {
    if n == 1 then 0
    else
      var r := LargestOf(zones, n - 1);
      if Length(zones[r]) < Length(zones[n - 1]) then n - 1 else r
  }

  function SplitZone(zones: seq<Zone>, i: nat, at: int): seq<Zone>
    requires i < |zones|
  {
    var z := zones[i];
    zones[..i] + [Zone(z.begin, at, z.beginBad, false), Zone(at, z.end, false, z.endBad)] + zones[i + 1..]
  }

  function Align(lba: int): int {
    lba - lba % SECTORS_AT_ONCE
  }

  function MidPoint(z: Zone): int {
    Align(z.begin + Length(z) / 2)
  }

  function SkipPoint(c: Config, z: Zone): int {
    Align(z.begin + c.skipBlocks * SECTORS_AT_ONCE)
  }

  predicate MaySplit(zones: seq<Zone>, k: nat)
    requires k < |zones|
  {
    Length(zones[k]) > INDIVISIBLE_DEFECT_ZONE_SIZE_SECTORS && |zones| < MAX_ZONES
  }

  function Point(s: Sched, i: nat): Sched
    requires i < |s.zones|
  {
    s.(current := Some(i), reverse := s.zones[i].beginBad)
  }

  /** Split zone `k` in the middle and search again. */
  function SmartJump(c: Config, s: Sched, k: nat): Option<Sched>
    requires k < |s.zones|
  {
    var zones := SplitZone(s.zones, k, MidPoint(s.zones[k]));
    var j := FirstLive(c, zones, 0);
    if j < |zones| then Some(Point(s.(zones := zones), j)) else None
  }

  function SmartChoose(c: Config, s: Sched): Option<Sched>
    requires |s.zones| > 0 && CursorOk(s)
  {
    if s.current.Some? then Some(s)
    else if s.stage == 1 then Some(s.(current := Some(0), reverse := false))
    else
      var i := FirstLive(c, s.zones, 0);
      if i < |s.zones| then Some(Point(s, i))
      else
        var k := LargestOf(s.zones, |s.zones|);
        if MaySplit(s.zones, k) then
          SmartJump(c, s, k)
        else
          Some(s.(stage := 1, current := Some(0), reverse := false))
  }

  /** skipfail works at zone `i`: forward, backward, or by jumping ahead in it. */
  function SkipfailAt(c: Config, s: Sched, i: nat): Sched
    requires i < |s.zones|
  {
    var z := s.zones[i];
    if !z.beginBad then s.(current := Some(i), reverse := false)
    else if c.strategy != SkipfailNoReverse && !z.endBad && i + 1 < |s.zones| then
      s.(current := Some(i), reverse := true)
    else
      var zones := SplitZone(s.zones, i, SkipPoint(c, z));
      if c.strategy == SkipfailNoReverse
      then s.(zones := zones, current := Some(i + 1), reverse := false)
      else s.(zones := zones, current := Some(i), reverse := true)
  }

  function SkipfailChoose(c: Config, s: Sched): Option<Sched>
    requires |s.zones| > 0 && CursorOk(s)
  {
    if s.current.Some? then Some(s)
    else
      var i := FirstLive(c, s.zones, 0);
      if i == |s.zones| then None else Some(SkipfailAt(c, s, i))
  }

  /** `get_task`: the state with a current zone chosen, or None for failure.
      The block to read is `Proceed` of that state. */
  function Choose(c: Config, s: Sched): (r: Option<Sched>)
    requires |s.zones| > 0 && CursorOk(s)
    ensures r.Some? ==> r.value.current.Some? && r.value.current.value < |r.value.zones|
  {
    match c.strategy
    case Plain => Some(s.(current := Some(0)))
    case Smart => SmartChoose(c, s)
    case SmartNoReverse => SmartChoose(c, s)
    case Skipfail => SkipfailChoose(c, s)
    case SkipfailNoReverse => SkipfailChoose(c, s)
  }

  // ----- taking the result in -----

  function Shrink(z: Zone, reverse: bool, n: int, failed: bool): Zone {
    if reverse then z.(end := z.end - n, endBad := failed)
    else z.(begin := z.begin + n, beginBad := failed)
  }

  /** `common_update_zones`: cut the processed block off the current zone, unlink it when empty. */
  function Consume(s: Sched, n: int, failed: bool): Sched
    requires s.current.Some? && s.current.value < |s.zones|
  {
    var i := s.current.value;
    var z := Shrink(s.zones[i], s.reverse, n, failed);
    if z.begin == z.end then s.(zones := Without(s.zones, i), current := None)
    else s.(zones := s.zones[i := z])
  }

  /** `use_results` of each strategy. */
  function UseResults(c: Config, s: Sched, n: int, failed: bool): Sched
    requires s.current.Some? && s.current.value < |s.zones|
  {
    var s' := Consume(s, n, failed);
    match c.strategy
    case Plain => s'
    case Smart => if failed && s.stage == 0 then s'.(current := None) else s'
    case SmartNoReverse => if failed && s.stage == 0 then s'.(current := None) else s'
    case Skipfail => if failed then s'.(current := None) else s'
    case SkipfailNoReverse => if failed then s'.(current := None) else s'
  }
}
