/** The linked list of unread zones and the strategies' code over it. */
module ZoneList {
  import opened CopyTypes
  import opened ReadStrategies
  import opened ZoneCover
  import opened CopyRun
  import opened CopyBounds

  /** A list node, `struct zone`. */
  class ZoneNode {
    var beginLba: int
    var endLba: int
    var beginBad: bool
    var endBad: bool
    var next: ZoneNode?

    constructor (beginLba: int, endLba: int, beginBad: bool, endBad: bool, next: ZoneNode?)
      ensures this.Value() == Zone(beginLba, endLba, beginBad, endBad) && this.next == next
    {
      this.beginLba, this.endLba := beginLba, endLba;
      this.beginBad, this.endBad := beginBad, endBad;
      this.next := next;
    }

    ghost function Value(): Zone
      reads this
    {
      Zone(beginLba, endLba, beginBad, endBad)
    }

    /** End the zone at `at` and give what is beyond to a new node after it. */
    method CutAt(at: int) returns (newentry: ZoneNode)
      requires beginLba < at < endLba
      modifies this
      ensures fresh(newentry) && newentry.next == old(next) && next == newentry
      ensures Value() == old(Value()).(end := at, endBad := false)
      ensures newentry.Value() == Zone(at, old(endLba), false, old(endBad))
    {
      newentry := new ZoneNode(at, endLba, false, endBad, next);
      next := newentry;
      assert beginLba < newentry.beginLba && newentry.beginLba < newentry.endLba;
      endLba := newentry.beginLba;
      endBad := false;
    }
  }

  function NodeAt(nodes: seq<ZoneNode>, i: nat): ZoneNode? {
    if i < |nodes| then nodes[i] else null
  }

  ghost predicate Distinct(nodes: seq<ZoneNode>) {
    forall i, j | 0 <= i < j < |nodes| :: nodes[i] != nodes[j]
  }

  /** The nodes are distinct and each points to the next. */
  ghost predicate Chained(nodes: seq<ZoneNode>)
    reads nodes
  {
    && Distinct(nodes)
    && (forall i {:trigger nodes[i].next} | 0 <= i < |nodes| :: nodes[i].next == NodeAt(nodes, i + 1))
  }

  ghost function Values(nodes: seq<ZoneNode>): (r: seq<Zone>)
    reads nodes
    ensures |r| == |nodes|
    ensures forall i | 0 <= i < |nodes| :: r[i] == nodes[i].Value()
  {
    seq(|nodes|, i requires 0 <= i < |nodes| reads nodes => nodes[i].Value())
  }

  function Inserted(nodes: seq<ZoneNode>, i: nat, n: ZoneNode): seq<ZoneNode>
    requires i < |nodes|
  {
    nodes[..i + 1] + [n] + nodes[i + 1..]
  }

  lemma InsertChained(before: seq<ZoneNode>, i: nat, n: ZoneNode)
    requires i < |before| && n !in before
    requires Distinct(before)
    requires forall j {:trigger before[j].next} | 0 <= j < |before| && j != i :: before[j].next == NodeAt(before, j + 1)
    requires before[i].next == n && n.next == NodeAt(before, i + 1)
    ensures Chained(Inserted(before, i, n))
    ensures NodeAt(Inserted(before, i, n), 0) == before[0] && |Inserted(before, i, n)| == |before| + 1
  {
    var nodes := Inserted(before, i, n);
    assert forall j | 0 <= j < |nodes| :: nodes[j] == if j <= i then before[j] else if j ==
           i + 1 then n else before[j - 1];
  }

  lemma InsertMembers(before: seq<ZoneNode>, i: nat, n: ZoneNode, s: set<ZoneNode>)
    requires i < |before| && forall j | 0 <= j < |before| :: before[j] in s
    ensures var nodes := Inserted(before, i, n); forall j | 0 <= j < |nodes| :: nodes[j] in s + {n}
  {
  }

  lemma InsertValues(before: seq<ZoneNode>, zones: seq<Zone>, i: nat, n: ZoneNode, at: int)
    requires |zones| == |before| && i < |before|
    requires forall j | 0 <= j < |before| && j != i :: before[j].Value() == zones[j]
    requires before[i].Value() == Zone(zones[i].begin, at, zones[i].beginBad, false)
    requires n.Value() == Zone(at, zones[i].end, false, zones[i].endBad)
    ensures Values(Inserted(before, i, n)) == SplitZone(zones, i, at)
  {
    var nodes := Inserted(before, i, n);
    assert forall j | 0 <= j < |nodes| :: nodes[j] == if j <= i then before[j] else if j ==
           i + 1 then n else before[j - 1];
  }

  lemma AppendChained(before: seq<ZoneNode>, n: ZoneNode)
    requires n !in before && n.next == null
    requires Distinct(before)
    requires forall j {:trigger before[j].next} | 0 <= j < |before| ::
               before[j].next == if j + 1 < |before| then before[j + 1] else n
    ensures Chained(before + [n]) && NodeAt(before + [n], 0) == if before == [] then n else before[0]
  {
    var nodes := before + [n];
    assert forall j | 0 <= j < |nodes| :: nodes[j] == if j < |before| then before[j] else n;
  }

  lemma AppendValues(before: seq<ZoneNode>, zones: seq<Zone>, n: ZoneNode)
    requires |zones| == |before| && forall j | 0 <= j < |before| :: before[j].Value() == zones[j]
    ensures Values(before + [n]) == zones + [n.Value()]
  {
  }

  lemma RemoveChained(before: seq<ZoneNode>, i: nat)
    requires i < |before|
    requires Distinct(before)
    requires forall j {:trigger before[j].next} | 0 <= j < |before| && j != i ::
               before[j].next == NodeAt(before, if j + 1 == i then j + 2 else j + 1)
    ensures Chained(Without(before, i))
  {
    var nodes := Without(before, i);
    assert forall j | 0 <= j < |nodes| :: nodes[j] == if j < i then before[j] else before[j + 1];
  }

  lemma RemoveValues(before: seq<ZoneNode>, zones: seq<Zone>, i: nat)
    requires |zones| == |before| && i < |before|
    requires forall j | 0 <= j < |before| && j != i :: before[j].Value() == zones[j]
    ensures Values(Without(before, i)) == Without(zones, i)
  {
    var nodes := Without(before, i);
    assert forall j | 0 <= j < |nodes| :: nodes[j] == if j < i then before[j] else before[j + 1];
  }

  lemma RemoveMembers(before: seq<ZoneNode>, i: nat, s: set<ZoneNode>)
    requires i < |before| && forall j | 0 <= j < |before| :: before[j] in s
    ensures var nodes := Without(before, i);
            |nodes| == |before| - 1 && (forall j | 0 <= j < |nodes| :: nodes[j] in s)
            && NodeAt(nodes, 0) == NodeAt(before, if i == 0 then 1 else 0)
  {
  }

  /** What smart chooses when every zone is stuck. */
  lemma StuckChoice(c: Config, s: Sched)
    requires IsSmart(c) && |s.zones| > 0 && s.current == None && s.stage == 0
    requires FirstLive(c, s.zones, 0) == |s.zones|
    ensures AllStuck(c, s.zones)
    ensures var k := LargestOf(s.zones, |s.zones|);
            SmartChoose(c, s) ==
            if MaySplit(s.zones, k) then SmartJump(c, s, k)
            else Some(s.(stage := 1, current := Some(0), reverse := false))
  {
  }

  /** The scheduling part of the copy's private data. */
  class Scheduler {
    const config: Config
    var unreadZones: ZoneNode?
    var nbZones: int
    var currentZone: ZoneNode?
    var reverse: bool
    var stage: int
    ghost var nodes: seq<ZoneNode>       // the list, front to back
    ghost var position: Option<nat>      // where the current zone is in it
    ghost var footprint: set<ZoneNode>   // all nodes the scheduler may touch

    ghost predicate Linked()
      reads this, nodes
    {
      && Chained(nodes)
      && (forall i | 0 <= i < |nodes| :: nodes[i] in footprint)
      && unreadZones == NodeAt(nodes, 0)
      && nbZones == |nodes|
      && (position.Some? <==> currentZone != null)
      && (position.Some? ==> position.value < |nodes| && nodes[position.value] == currentZone)
    }

    ghost function Zones(): seq<Zone>
      reads this, nodes
    {
      Values(nodes)
    }

    ghost function Abs(): Sched
      reads this, nodes
    {
      Sched(Zones(), position, reverse, stage)
    }

    constructor (config: Config)
      ensures Linked() && this.config == config
      ensures Abs() == Sched([], None, false, 0) && nodes == [] && footprint == {}
    {
      this.config := config;
      unreadZones, currentZone, nbZones := null, null, 0;
      reverse, stage := false, 0;
      nodes, position, footprint := [], None, {};
    }

    /** Drop all zones. */
    method Reset()
      modifies this
      ensures Linked() && nodes == [] && footprint == {} && Abs() == Sched([], None, reverse, stage)
      ensures reverse == old(reverse) && stage == old(stage)
    {
      nbZones, unreadZones, currentZone := 0, null, null;
      nodes, position, footprint := [], None, {};
    }

    /** The walk to the end of the list. */
    method LastZone() returns (lastZone: ZoneNode)
      requires Linked() && |nodes| > 0
      ensures lastZone == nodes[|nodes| - 1]
    {
      lastZone := unreadZones;
      ghost var i := 0;
      while lastZone.next != null
        invariant i < |nodes| && lastZone == nodes[i]
        decreases |nodes| - i
      {
        lastZone := lastZone.next;
        i := i + 1;
      }
    }

    /** Let the end of the list point to the new node. */
    method LinkLast(zone: ZoneNode)
      requires Linked() && zone !in nodes && zone.next == null
      modifies this`unreadZones, nodes
      ensures unreadZones == if nodes == [] then zone else nodes[0]
      ensures zone.next == null && zone.Value() == old(zone.Value())
      ensures Distinct(nodes)
      ensures forall j {:trigger nodes[j].next} | 0 <= j < |nodes| ::
                nodes[j].next == if j + 1 < |nodes| then nodes[j + 1] else zone
      ensures forall j | 0 <= j < |nodes| :: nodes[j].Value() == old(nodes[j].Value())
    {
      if unreadZones == null {
        unreadZones := zone;
      } else {
        var lastZone := LastZone();
        lastZone.next := zone;
      }
    }

    /** `append_zone`. */
    method AppendZone(zone: ZoneNode)
      requires Linked() && zone !in nodes && zone.next == null && position == None
      modifies this, footprint
      ensures Linked() && nodes == old(nodes) + [zone] && footprint == old(footprint) + {zone}
      ensures Abs() == old(Abs()).(zones := old(Zones()) + [old(zone.Value())])
    {
      hide Chained, Values, NodeAt;
      ghost var zones := Zones();
      LinkLast(zone);
      AppendChained(nodes, zone);
      AppendValues(nodes, zones, zone);
      nodes := nodes + [zone];
      footprint := footprint + {zone};
      nbZones := nbZones + 1;
    }

    /** `find_largest_zone`. */
    method FindLargestZone() returns (largest: ZoneNode)
      requires Linked() && |nodes| > 0
      ensures largest == nodes[LargestOf(Zones(), |nodes|)]
    {
      largest := unreadZones;
      var entry := unreadZones.next;
      ghost var i := 1;
      while entry != null
        invariant 1 <= i <= |nodes| && entry == NodeAt(nodes, i)
        invariant largest == nodes[LargestOf(Zones(), i)]
        decreases |nodes| - i
      {
        assert Zones()[i] == entry.Value() && Zones()[LargestOf(Zones(), i)] == largest.Value();
        if largest.endLba - largest.beginLba < entry.endLba - entry.beginLba {
          largest := entry;
        }
        entry := entry.next;
        i := i + 1;
      }
    }

    /** `give_task_proceeding_current_zone`. */
    method GiveTaskProceedingCurrentZone() returns (lba: int, sectors: int)
      requires Linked() && currentZone != null
      ensures Task(lba, sectors) == Proceed(Abs())
    {
      var entry := currentZone;
      var zoneLengthSectors := entry.endLba - entry.beginLba;
      sectors := if zoneLengthSectors < SECTORS_AT_ONCE then zoneLengthSectors else SECTORS_AT_ONCE;
      if reverse {
        lba := entry.endLba - sectors;
      } else {
        lba := entry.beginLba;
      }
    }

    /** `smart_set_first_processable_zone_current`: 0 when a zone was found. */
    method SmartSetFirstProcessableZoneCurrent() returns (r: int)
      requires Linked() && IsSmart(config) && currentZone == null
      modifies this
      ensures Linked() && nodes == old(nodes) && footprint == old(footprint)
      ensures var i := FirstLive(config, old(Zones()), 0);
              if i < |nodes| then r == 0 && Abs() == Point(old(Abs()), i) else r == 1 && Abs() == old(Abs())
    {
      var entry := unreadZones;
      ghost var i := 0;
      while entry != null
        invariant 0 <= i <= |nodes| && entry == NodeAt(nodes, i)
        invariant FirstLive(config, Zones(), 0) == FirstLive(config, Zones(), i)
        invariant Linked() && Abs() == old(Abs()) && nodes == old(nodes) && footprint == old(footprint)
        decreases |nodes| - i
      {
        if !entry.beginBad {
          currentZone, reverse := entry, false;
          position := Some(i);
          return 0;
        }
        if config.strategy != SmartNoReverse && !entry.endBad {
          currentZone, reverse := entry, true;
          position := Some(i);
          return 0;
        }
        entry := entry.next;
        i := i + 1;
      }
      return 1;
    }

    /** The statements both jumping strategies split a zone with. */
    method SplitEntry(entry: ZoneNode, at: int, ghost i: nat) returns (newentry: ZoneNode)
      requires Linked() && i < |nodes| && nodes[i] == entry && currentZone == null
      requires entry.beginLba < at < entry.endLba
      modifies this, footprint
      ensures Linked() && fresh(footprint - old(footprint)) && currentZone == null
      ensures nodes == Inserted(old(nodes), i, newentry)
      ensures Zones() == SplitZone(old(Zones()), i, at)
      ensures reverse == old(reverse) && stage == old(stage)
    {
      ghost var zones, before := Zones(), nodes;
      nbZones := nbZones + 1;
      newentry := entry.CutAt(at);
      InsertChained(before, i, newentry);
      InsertValues(before, zones, i, newentry, at);
      InsertMembers(before, i, newentry, footprint);
      nodes := Inserted(before, i, newentry);
      footprint := footprint + {newentry};
    }

    /** `plain_get_task`. */
    method PlainGetTask() returns (lba: int, sectors: int)
      requires Linked() && |nodes| > 0 && !reverse
      modifies this
      ensures Linked() && nodes == old(nodes) && footprint == old(footprint)
      ensures Abs() == old(Abs()).(current := Some(0)) && Task(lba, sectors) == Proceed(Abs())
    {
      var zone := unreadZones;
      currentZone := zone;
      position := Some(0);
      lba := zone.beginLba;
      sectors := zone.endLba - zone.beginLba;
      if sectors > SECTORS_AT_ONCE {
        sectors := SECTORS_AT_ONCE;
      }
    }

    /** Go through the zones from the front, ignoring errors. */
    method StartSequential()
      requires Linked() && |nodes| > 0
      modifies this
      ensures Linked() && nodes == old(nodes) && footprint == old(footprint)
      ensures Abs() == old(Abs()).(current := Some(0), reverse := false)
    {
      currentZone, reverse := unreadZones, false;
      position := Some(0);
    }

    /** The branch of `smart_get_task` that jumps into the middle of a zone. */
    method SmartSplit(entry: ZoneNode, ghost k: nat) returns (r: int)
      requires Linked() && IsSmart(config) && k < |nodes| && nodes[k] == entry && currentZone == null
      requires AllStuck(config, Zones()) && 0 <= entry.beginLba
      requires entry.endLba - entry.beginLba > INDIVISIBLE_DEFECT_ZONE_SIZE_SECTORS
      modifies this, footprint
      ensures Linked() && fresh(footprint - old(footprint))
      ensures r == 0 && SmartJump(config, old(Abs()), k) == Some(Abs())
    {
      hide SplitZone, FirstLive, Chained, NodeAt;
      var at := entry.beginLba + (entry.endLba - entry.beginLba) / 2;
      at := at - at % SECTORS_AT_ONCE;
      assert Zones()[k] == entry.Value();
      MidPointInside(Zones()[k]);
      assert at == MidPoint(Zones()[k]);
      SmartJumpLands(config, Abs(), k);
      ghost var zones := SplitZone(Zones(), k, at);
      var newentry := SplitEntry(entry, at, k);
      assert Zones() == zones;
      r := SmartSetFirstProcessableZoneCurrent();
    }

    /** `smart_get_task` once the search for a border has failed. */
    method SmartWhenStuck() returns (r: int)
      requires Linked() && IsSmart(config) && |nodes| > 0 && currentZone == null
      requires AllStuck(config, Zones()) && forall i | 0 <= i < |nodes| :: 0 <= Zones()[i].begin
      modifies this, footprint
      ensures Linked() && fresh(footprint - old(footprint))
      ensures var s := old(Abs()); var k := LargestOf(s.zones, |s.zones|);
              r == 0 && Some(Abs()) ==
                if MaySplit(s.zones, k) then SmartJump(config, s, k)
                else Some(s.(stage := 1, current := Some(0), reverse := false))
    {
      hide SplitZone, SmartJump, LargestOf, FirstLive;
      var entry := FindLargestZone();
      ghost var k := LargestOf(Zones(), |nodes|);
      assert Stuck(config, Zones(), k) && Zones()[k] == entry.Value();
      assert entry.beginBad;
      assert config.strategy == SmartNoReverse || entry.endBad;
      var zoneLengthSectors := entry.endLba - entry.beginLba;
      if zoneLengthSectors > INDIVISIBLE_DEFECT_ZONE_SIZE_SECTORS && nbZones < MAX_ZONES {
        r := SmartSplit(entry, k);
      } else {
        stage := 1;
        StartSequential();
        r := 0;
      }
    }

    /** `smart_get_task` when it cannot just proceed with the current zone. */
    method SmartPick() returns (r: int)
      requires Linked() && IsSmart(config) && |nodes| > 0 && currentZone == null && stage == 0
      requires forall i | 0 <= i < |nodes| :: 0 <= Zones()[i].begin
      modifies this, footprint
      ensures Linked() && fresh(footprint - old(footprint))
      ensures r == 0 && SmartChoose(config, old(Abs())) == Some(Abs())
    {
      hide SmartJump;
      r := SmartSetFirstProcessableZoneCurrent();
      if r != 0 {
        StuckChoice(config, Abs());
        r := SmartWhenStuck();
      }
    }

    /** `smart_get_task`. */
    method SmartGetTask() returns (r: int, lba: int, sectors: int)
      requires Linked() && IsSmart(config) && |nodes| > 0 && (stage == 0 || stage == 1)
      requires forall i | 0 <= i < |nodes| :: 0 <= Zones()[i].begin
      modifies this, footprint
      ensures Linked() && fresh(footprint - old(footprint))
      ensures r == 0 && SmartChoose(config, old(Abs())) == Some(Abs()) && Task(lba, sectors) == Proceed(Abs())
    {
      hide FirstLive, LargestOf, Chained, Values;
      r := 0;
      if currentZone == null {
        if stage == 1 {
          StartSequential();
        } else {
          r := SmartPick();
        }
      }
      ghost var chosen := Abs();
      assert SmartChoose(config, old(Abs())) == Some(chosen);
      lba, sectors := GiveTaskProceedingCurrentZone();
    }

    /** `skipfail_get_task`: 1 when all zones are too small to jump into. */
    method SkipfailGetTask() returns (r: int, lba: int, sectors: int)
      requires Linked() && IsSkipfail(config) && ConfigOk(config) && |nodes| > 0 && Gapped(Zones())
      modifies this, footprint
      ensures Linked() && fresh(footprint - old(footprint))
      ensures match SkipfailChoose(config, old(Abs()))
              case None => r == 1 && Abs() == old(Abs()) && nodes == old(nodes)
              case Some(s) => r == 0 && Abs() == s && Task(lba, sectors) == Proceed(Abs())
    {
      r, lba, sectors := 0, 0, 0;
      if currentZone == null {
        r := SkipfailPick();
        if r != 0 {
          return;
        }
      }
      lba, sectors := GiveTaskProceedingCurrentZone();
    }

    /** The search of `skipfail_get_task`. */
    method SkipfailPick() returns (r: int)
      requires Linked() && IsSkipfail(config) && ConfigOk(config) && |nodes| > 0 && currentZone == null
      requires forall i | 0 <= i < |nodes| :: 0 <= Zones()[i].begin
      modifies this, footprint
      ensures Linked() && fresh(footprint - old(footprint))
      ensures match SkipfailChoose(config, old(Abs()))
              case None => r == 1 && Abs() == old(Abs()) && nodes == old(nodes)
              case Some(s) => r == 0 && Abs() == s
    {
      hide SkipfailAt;
      var entry := unreadZones;
      ghost var i := 0;
      while entry != null
        invariant 0 <= i <= |nodes| && entry == NodeAt(nodes, i)
        invariant FirstLive(config, Zones(), 0) == FirstLive(config, Zones(), i)
        invariant Linked() && Abs() == old(Abs()) && nodes == old(nodes) && footprint == old(footprint)
        decreases |nodes| - i
      {
        assert Zones()[i] == entry.Value();
        var taken := SkipfailTake(entry, i);
        if taken {
          return 0;
        }
        entry := entry.next;
        i := i + 1;
      }
      return 1;
    }

    /** The body of the search: start working at this zone if there is a way to. */
    method SkipfailTake(entry: ZoneNode, ghost i: nat) returns (taken: bool)
      requires Linked() && IsSkipfail(config) && ConfigOk(config) && i < |nodes| && nodes[i] == entry
               && currentZone == null
      requires 0 <= entry.beginLba
      modifies this, footprint
      ensures Linked() && fresh(footprint - old(footprint))
      ensures taken <==> !Stuck(config, old(Zones()), i)
      ensures taken ==> Abs() == SkipfailAt(config, old(Abs()), i)
      ensures !taken ==> Abs() == old(Abs()) && nodes == old(nodes) && footprint == old(footprint)
    {
      assert Zones()[i] == entry.Value();
      var zoneLengthSectors := entry.endLba - entry.beginLba;
      if !entry.beginBad {
        currentZone, reverse := entry, false;
        position := Some(i);
        return true;
      } else if config.strategy != SkipfailNoReverse && !entry.endBad && entry.next != null {
        currentZone, reverse := entry, true;
        position := Some(i);
        return true;
      } else if zoneLengthSectors > config.skipBlocks * SECTORS_AT_ONCE {
        SkipfailSplit(entry, i);
        return true;
      }
      return false;
    }

    /** The branch of `skipfail_get_task` that jumps `skipBlocks` ahead. */
    method SkipfailSplit(entry: ZoneNode, ghost i: nat)
      requires Linked() && IsSkipfail(config) && ConfigOk(config) && i < |nodes| && nodes[i] == entry
               && currentZone == null
      requires 0 <= entry.beginLba && entry.endLba - entry.beginLba > config.skipBlocks * SECTORS_AT_ONCE
      modifies this, footprint
      ensures Linked() && fresh(footprint - old(footprint))
      ensures var zones := SplitZone(old(Zones()), i, SkipPoint(config, old(entry.Value())));
              Abs() == if config.strategy == SkipfailNoReverse
                       then old(Abs()).(zones := zones, current := Some(i + 1), reverse := false)
                       else old(Abs()).(zones := zones, current := Some(i), reverse := true)
    {
      hide SplitZone, Chained, Values, NodeAt;
      assert Zones()[i] == entry.Value();
      SkipPointInside(config, Zones()[i]);
      var at := entry.beginLba + config.skipBlocks * SECTORS_AT_ONCE;
      at := at - at % SECTORS_AT_ONCE;
      assert at == SkipPoint(config, Zones()[i]);
      ghost var zones := SplitZone(Zones(), i, at);
      var newentry := SplitEntry(entry, at, i);
      assert Zones() == zones;
      if config.strategy == SkipfailNoReverse {
        currentZone, reverse := newentry, false;
        position := Some(i + 1);
      } else {
        currentZone, reverse := entry, true;
        position := Some(i);
      }
    }

    /** `get_task` of the configured strategy. */
    method GetTask() returns (r: int, lba: int, sectors: int)
      requires Linked() && ConfigOk(config) && |nodes| > 0 && Gapped(Zones())
      requires stage == 0 || stage == 1
      requires config.strategy == Plain ==> !reverse
      modifies this, footprint
      ensures Linked() && fresh(footprint - old(footprint))
      ensures match Choose(config, old(Abs()))
              case None => r != 0 && Abs() == old(Abs())
              case Some(s) => r == 0 && Abs() == s && Task(lba, sectors) == Proceed(Abs())
    {
      match config.strategy
      case Plain =>
        lba, sectors := PlainGetTask();
        r := 0;
      case Smart =>
        r, lba, sectors := SmartGetTask();
      case SmartNoReverse =>
        r, lba, sectors := SmartGetTask();
      case Skipfail =>
        r, lba, sectors := SkipfailGetTask();
      case SkipfailNoReverse =>
        r, lba, sectors := SkipfailGetTask();
    }

    /** Cut the processed block off the current zone. */
    method ShrinkCurrent(lba: int, sectors: int, readFailed: bool)
      requires Linked() && currentZone != null && Task(lba, sectors) == Proceed(Abs())
      modifies footprint
      ensures Linked()
      ensures Zones() == old(Zones())[position.value := Shrink(old(currentZone.Value()), reverse, sectors, readFailed)]
    {
      ghost var zones := Zones();
      var zone := currentZone;
      assert zones[position.value] == zone.Value();
      if reverse {
        zone.endLba := zone.endLba - sectors;
        assert zone.endLba == lba;
        zone.endBad := readFailed;
      } else {
        assert zone.beginLba == lba;
        zone.beginLba := zone.beginLba + sectors;
        zone.beginBad := readFailed;
      }
      assert Zones() == zones[position.value := zone.Value()];
    }

    /** The walk to the current zone: the node before it, if any. */
    method BeforeCurrent() returns (prev: ZoneNode?)
      requires Linked() && currentZone != null
      ensures prev == if position.value == 0 then null else nodes[position.value - 1]
    {
      prev := null;
      var entry := unreadZones;
      ghost var i := 0;
      while entry != currentZone
        invariant 0 <= i <= position.value && entry == NodeAt(nodes, i)
        invariant prev == if i == 0 then null else nodes[i - 1]
        decreases |nodes| - i
      {
        prev, entry := entry, entry.next;
        i := i + 1;
      }
    }

    /** Let the list go past the current zone. */
    method PassCurrent(prev: ZoneNode?)
      requires Linked() && currentZone != null
      requires prev == if position.value == 0 then null else nodes[position.value - 1]
      modifies this`unreadZones, prev
      ensures Distinct(nodes) && unreadZones == NodeAt(nodes, if position.value == 0 then 1 else 0)
      ensures forall j {:trigger nodes[j].next} | 0 <= j < |nodes| && j != position.value ::
                nodes[j].next == NodeAt(nodes, if j + 1 == position.value then j + 2 else j + 1)
      ensures forall j | 0 <= j < |nodes| :: nodes[j].Value() == old(nodes[j].Value())
    {
      if prev != null {
        prev.next := currentZone.next;
      } else {
        unreadZones := currentZone.next;
      }
    }

    /** Unlink the current zone from the list. */
    method UnlinkCurrent()
      requires Linked() && currentZone != null
      modifies this, footprint
      ensures Linked() && footprint == old(footprint) && currentZone == null
      ensures Zones() == Without(old(Zones()), old(position).value)
      ensures reverse == old(reverse) && stage == old(stage)
    {
      hide Without, Chained, Values, NodeAt, Distinct;
      ghost var zones, before, p := Zones(), nodes, position.value;
      var prev := BeforeCurrent();
      PassCurrent(prev);
      RemoveChained(before, p);
      RemoveValues(before, zones, p);
      RemoveMembers(before, p, footprint);
      nodes := Without(before, p);
      nbZones := nbZones - 1;
      currentZone, position := null, None;
    }

    /** `common_update_zones`. */
    method CommonUpdateZones(lba: int, sectors: int, readFailed: bool)
      requires Linked() && currentZone != null && Near(Abs()) && Task(lba, sectors) == Proceed(Abs())
      modifies this, footprint
      ensures Linked() && footprint == old(footprint)
      ensures Abs() == Consume(old(Abs()), sectors, readFailed)
    {
      TaskInZone(Abs());
      assert Zones()[position.value] == currentZone.Value();
      ghost var p, zones := position.value, Zones();
      ShrinkCurrent(lba, sectors, readFailed);
      assert Zones()[p] == currentZone.Value();
      assert currentZone.beginLba <= currentZone.endLba;
      if currentZone.beginLba == currentZone.endLba {
        UnlinkCurrent();
        assert Zones() == Without(zones, p);
      }
    }

    /** Let `get_task` choose zone and direction anew. */
    method ForgetCurrent()
      requires Linked()
      modifies this`currentZone, this`position
      ensures Linked() && Abs() == old(Abs()).(current := None)
    {
      currentZone, position := null, None;
    }

    /** `plain_update_zones`. */
    method PlainUpdateZones(lba: int, sectors: int, failed: bool) returns (r: int)
      requires Linked() && currentZone != null && Near(Abs()) && Task(lba, sectors) == Proceed(Abs())
      modifies this, footprint
      ensures Linked() && footprint == old(footprint)
      ensures Abs() == Consume(old(Abs()), sectors, failed) && (r != 0 <==> failed)
    {
      hide Consume;
      CommonUpdateZones(lba, sectors, failed);
      r := if failed then 1 else 0;
    }

    /** `smart_update_zones`. */
    method SmartUpdateZones(lba: int, sectors: int, failed: bool)
      requires Linked() && currentZone != null && Near(Abs()) && Task(lba, sectors) == Proceed(Abs())
      modifies this, footprint
      ensures Linked() && footprint == old(footprint)
      ensures var s := Consume(old(Abs()), sectors, failed);
              Abs() == if failed && s.stage == 0 then s.(current := None) else s
    {
      hide Consume;
      CommonUpdateZones(lba, sectors, failed);
      if failed && stage == 0 {
        ForgetCurrent();
      }
    }

    /** `skipfail_update_zones`. */
    method SkipfailUpdateZones(lba: int, sectors: int, failed: bool)
      requires Linked() && currentZone != null && Near(Abs()) && Task(lba, sectors) == Proceed(Abs())
      modifies this, footprint
      ensures Linked() && footprint == old(footprint)
      ensures var s := Consume(old(Abs()), sectors, failed);
              Abs() == if failed then s.(current := None) else s
    {
      hide Consume;
      CommonUpdateZones(lba, sectors, failed);
      if failed {
        ForgetCurrent();
      }
    }

    /** `use_results` of the configured strategy; nonzero aborts the copy. */
    method UseResult(lba: int, sectors: int, failed: bool) returns (r: int)
      requires Linked() && currentZone != null && Near(Abs()) && Task(lba, sectors) == Proceed(Abs())
      modifies this, footprint
      ensures Linked() && footprint == old(footprint)
      ensures Abs() == UseResults(config, old(Abs()), sectors, failed)
      ensures r != 0 <==> config.strategy == Plain && failed
    {
      r := 0;
      if config.strategy == Plain {
        r := PlainUpdateZones(lba, sectors, failed);
      } else if IsSmart(config) {
        SmartUpdateZones(lba, sectors, failed);
      } else {
        SkipfailUpdateZones(lba, sectors, failed);
      }
    }
  }
}
