/** What `get_task` chooses, said without the functions that compute it. */
module Choices {
  import opened CopyTypes
  import opened ReadStrategies
  import opened CopyRun
  import opened CopyBounds

  /** `zones` with its `i`-th zone cut in two at `at`; the new borders are good. */
  ghost predicate CutIn(cut: seq<Zone>, zones: seq<Zone>, i: int, at: int)
    requires 0 <= i < |zones|
  {
    var z := zones[i];
    && |cut| == |zones| + 1
    && cut[i] == Zone(z.begin, at, z.beginBad, false) && cut[i + 1] == Zone(at, z.end, false, z.endBad)
    && (forall j | 0 <= j < i :: cut[j] == zones[j])
    && (forall j | i < j < |zones| :: cut[j + 1] == zones[j])
  }

  // ----- smart -----

  /** Nothing smart may read: the begin is defective and, with reverse reading, the end too. */
  predicate Unreadable(c: Config, z: Zone) {
    z.beginBad && (c.strategy == SmartNoReverse || z.endBad)
  }

  /** smart cuts a zone exactly when it is not in stage 1 and has no current zone, no zone has a good
      border it may read from, there are fewer than 1000 of them, and one has more than 1000000 sectors. */
  lemma SmartJumpsExactly(c: Config, s: Sched)
    requires IsSmart(c) && CursorOk(s) && |s.zones| > 0
    ensures Choose(c, s).Some?
    ensures Choose(c, s).value.zones != s.zones <==>
            && s.current == None && s.stage != 1 && (forall i | 0 <= i < |s.zones| :: Unreadable(c, s.zones[i]))
            && |s.zones| < 1000 && exists i | 0 <= i < |s.zones| :: Length(s.zones[i]) > 1000000
  {
    SmartIsChosen(c, s);
    SmartCases(c, s);
    hide Choose, SmartChoose;
    var k := LargestOf(s.zones, |s.zones|);
    if exists i | 0 <= i < |s.zones| :: Length(s.zones[i]) > 1000000 {
      var i :| 0 <= i < |s.zones| && Length(s.zones[i]) > 1000000;
      assert Length(s.zones[i]) <= Length(s.zones[k]);
    }
  }

  lemma SmartCases(c: Config, s: Sched)
    requires IsSmart(c) && CursorOk(s) && |s.zones| > 0
    ensures SmartChoose(c, s).Some?
    ensures var k := LargestOf(s.zones, |s.zones|);
            SmartChoose(c, s).value.zones != s.zones <==>
            && s.current == None && s.stage != 1 && (forall i | 0 <= i < |s.zones| :: Unreadable(c, s.zones[i]))
            && MaySplit(s.zones, k)
  {
    var i, k := FirstLive(c, s.zones, 0), LargestOf(s.zones, |s.zones|);
    if i == |s.zones| {
      forall j | 0 <= j < |s.zones| ensures Unreadable(c, s.zones[j]) { assert Stuck(c, s.zones, j); }
      SmartJumpLands(c, s, k);
      SplitLength(s.zones, k, MidPoint(s.zones[k]));
    } else {
      assert !Stuck(c, s.zones, i);
    }
  }

  /** Where smart cuts: in the first of the longest zones, at the block border at or before its middle,
      so that the right half is longer by less than two blocks. The next block is the one before the cut
      for smart and the one behind it for smart_noreverse. */
  lemma SmartJumpPlace(c: Config, s: Sched) returns (i: nat, at: int)
    requires IsSmart(c) && CursorOk(s) && |s.zones| > 0 && Gapped(s.zones)
    requires Choose(c, s).Some? && Choose(c, s).value.zones != s.zones
    ensures i < |s.zones|
    ensures forall j | 0 <= j < |s.zones| :: Length(s.zones[j]) <= Length(s.zones[i])
    ensures forall j | 0 <= j < i :: Length(s.zones[j]) < Length(s.zones[i])
    ensures var z := s.zones[i]; at % 256 == 0 && z.begin < at < z.end && 0 <= (z.end - at) - (at - z.begin) <= 511
    ensures CutIn(Choose(c, s).value.zones, s.zones, i, at)
    ensures Proceed(Choose(c, s).value) == Task(if c.strategy == Smart then at - 256 else at, 256)
    ensures var s1 := Choose(c, s).value; s1.stage == s.stage && s1.reverse == (c.strategy == Smart)
  {
    SmartIsChosen(c, s);
    SmartCases(c, s);
    i := LargestOf(s.zones, |s.zones|);
    at := MidPoint(s.zones[i]);
    MidPointInside(s.zones[i]);
    SplitPieces(s.zones, i, at);
    forall j | 0 <= j < |s.zones| ensures Stuck(c, s.zones, j) { assert Unreadable(c, s.zones[j]); }
    SmartJumpLands(c, s, i);
    assert FirstLive(c, s.zones, 0) == |s.zones| by { assert forall j | 0 <= j < |s.zones| :: Stuck(c, s.zones, j); }
  }

  lemma SplitPieces(zones: seq<Zone>, i: nat, at: int)
    requires i < |zones|
    ensures CutIn(SplitZone(zones, i, at), zones, i, at)
  {
  }

  /** What smart does when it does not cut: go on with its current zone; in stage 1, or when it enters it,
      go forward from the first one; otherwise take the first zone with a good border, its begin first. */
  lemma SmartGoesOn(c: Config, s: Sched) returns (i: nat)
    requires IsSmart(c) && CursorOk(s) && |s.zones| > 0
    requires Choose(c, s).Some? && Choose(c, s).value.zones == s.zones
    ensures i < |s.zones| && Choose(c, s).value.current == Some(i)
    ensures var s1 := Choose(c, s).value;
            if s.current.Some? then s1 == s
            else if s1.stage == 1 then i == 0 && !s1.reverse
            else
              && (forall j | 0 <= j < i :: Unreadable(c, s.zones[j])) && !Unreadable(c, s.zones[i])
              && s1.reverse == s.zones[i].beginBad && s1.stage == s.stage
    ensures s.current == None && s.stage != 1 && Choose(c, s).value.stage == 1 ==>
              forall j | 0 <= j < |s.zones| :: Unreadable(c, s.zones[j])
  {
    SmartIsChosen(c, s);
    SmartCases(c, s);
    i := Choose(c, s).value.current.value;
    var k := FirstLive(c, s.zones, 0);
    forall j | 0 <= j < k ensures Unreadable(c, s.zones[j]) { assert Stuck(c, s.zones, j); }
    assert k < |s.zones| ==> !Stuck(c, s.zones, k);
  }

  // ----- skipfail -----

  /** Nothing skipfail may do with the `i`-th zone. */
  predicate Hopeless(c: Config, zones: seq<Zone>, i: int)
    requires 0 <= i < |zones|
  {
    && zones[i].beginBad && Length(zones[i]) <= c.skipBlocks * 256
    && (c.strategy == SkipfailNoReverse || zones[i].endBad || i == |zones| - 1)
  }

  /** What skipfail does without a current zone: in the first zone that is not hopeless, read from a good
      begin; else, with reverse reading, from a good end unless it is the last zone; else cut it at the
      block border skip_blocks blocks on, and read the block behind the cut, or with reverse reading the
      one before it. */
  lemma SkipfailActs(c: Config, s: Sched) returns (i: nat, at: int)
    requires IsSkipfail(c) && ConfigOk(c) && s.current == None && |s.zones| > 0 && Gapped(s.zones)
    requires Choose(c, s).Some?
    ensures i < |s.zones| && (forall j | 0 <= j < i :: Hopeless(c, s.zones, j)) && !Hopeless(c, s.zones, i)
    ensures var z, s1 := s.zones[i], Choose(c, s).value;
            s1.stage == s.stage &&
            if !z.beginBad then s1 == s.(current := Some(i), reverse := false)
            else if c.strategy == Skipfail && !z.endBad && i != |s.zones| - 1
            then s1 == s.(current := Some(i), reverse := true)
            else
              && at % 256 == 0 && (c.skipBlocks - 1) * 256 < at - z.begin <= c.skipBlocks * 256 && at < z.end
              && CutIn(s1.zones, s.zones, i, at)
              && (if c.strategy == Skipfail
                  then s1.current == Some(i) && s1.reverse && Proceed(s1).lba + Proceed(s1).sectors == at
                  else s1.current == Some(i + 1) && !s1.reverse && Proceed(s1).lba == at)
  {
    SkipfailIsChosen(c, s);
    i := FirstLive(c, s.zones, 0);
    forall j | 0 <= j < i ensures Hopeless(c, s.zones, j) { assert Stuck(c, s.zones, j); }
    assert !Stuck(c, s.zones, i);
    at := SkipPoint(c, s.zones[i]);
    if Length(s.zones[i]) > c.skipBlocks * 256 { SkipPointInside(c, s.zones[i]); }
    PointAligned(c, s.zones[i]);
    hide SkipPoint, FirstLive;
    SplitPieces(s.zones, i, at);
  }

  lemma PointAligned(c: Config, z: Zone)
    ensures SkipPoint(c, z) % 256 == 0
  {
  }

  // ----- plain -----

  /** plain stops right after its first block that fails, or was not written whole, and no other strategy
      stops there. */
  lemma {:induction false} PlainStopsExactly(c: Config, s: Copy, os: seq<Outcome>)
    requires Valid(c, s)
    ensures var r := Run(c, s, os); var n := |r.tasks|;
            && (c.strategy == Plain ==> forall i | 0 <= i < n - 1 :: os[i] == Copied)
            && (r.ending == Aborted <==> c.strategy == Plain && n > 0 && os[n - 1] != Copied)
    decreases |os|
  {
    hide Step;
    if s.num < s.den && os != [] {
      AbortsExactly(c, s, os[0]);
      var r := Step(c, s, os[0]);
      if r.Done? && !r.abort {
        PlainStopsExactly(c, r.next, os[1..]);
        assert forall i | 0 < i < |os| :: os[i] == os[1..][i - 1];
      }
    }
  }

  lemma AbortsExactly(c: Config, s: Copy, o: Outcome)
    requires Valid(c, s) && s.num < s.den
    ensures Step(c, s, o).Done? ==> (Step(c, s, o).abort <==> c.strategy == Plain && o != Copied)
  {
    hide Choose, UseResults;
    HasZones(c, s);
  }
}
