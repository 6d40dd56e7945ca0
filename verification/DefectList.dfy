/** The read test's list of defective intervals. */
module DefectList {
  import opened CopyTypes

  /** What a block is filed under; the numbers are the source's. */
  const FINE := 0
  const SEVERE := 1
  const DAMAGED := 2
  const SLOW := 3

  /** `end` is the last sector, inclusive. */
  datatype Interval = Interval(begin: int, end: int, kind: int)

  /** Finished intervals and the one being accumulated. */
  datatype Intervals = Intervals(done: seq<Interval>, open: Option<Interval>)

  /** `dg_interval_update`. */
  function Update(s: Intervals, lba: int, end: int, kind: int): Intervals {
    if kind != FINE && s.open.Some? && s.open.value.kind == kind && lba == s.open.value.end + 1 then
      s.(open := Some(s.open.value.(end := end)))
    else
      var next := if kind != FINE then Some(Interval(lba, end, kind)) else None;
      if s.open.Some? then Intervals(s.done + [s.open.value], next) else Intervals(s.done, next)
  }

  /** The code keeps the open interval in three fields; kind 0 means there is none. */
  class DefectLog {
    var intervals: seq<Interval>
    var curBegin: int
    var curEnd: int
    var curKind: int

    ghost function Abs(): Intervals
      reads this
    {
      Intervals(intervals, if curKind == FINE then None else Some(Interval(curBegin, curEnd, curKind)))
    }

    constructor ()
      ensures Abs() == Intervals([], None)
    {
      intervals, curBegin, curEnd, curKind := [], 0, 0, FINE;
    }

    method Flush()
      requires curKind != FINE
      modifies this
      ensures Abs() == Intervals(old(Abs()).done + [old(Abs()).open.value], None)
    {
      intervals := intervals + [Interval(curBegin, curEnd, curKind)];
      curKind := FINE;
    }

    method DgIntervalUpdate(lba: int, end: int, kind: int)
      modifies this
      ensures Abs() == Update(old(Abs()), lba, end, kind)
    {
      if kind != FINE {
        if curKind == kind && lba == curEnd + 1 {
          curEnd := end;
          return;
        }
        if curKind != FINE {
          Flush();
        }
        curBegin, curEnd, curKind := lba, end, kind;
        return;
      }
      if curKind != FINE {
        Flush();
      }
    }
  }

  // ----- what the list says about the scanned blocks -----

  /** A scanned block and how it was filed. */
  datatype Filed = Filed(lba: int, sectors: int, kind: int)

  predicate Holds(f: Filed, k: int) {
    f.lba <= k < f.lba + f.sectors
  }

  predicate Spans(i: Interval, k: int) {
    i.begin <= k <= i.end
  }

  function EndOf(blocks: seq<Filed>, from: int): int {
    if blocks == [] then from else blocks[|blocks| - 1].lba + blocks[|blocks| - 1].sectors
  }

  /** Each block starts where the one before ends, the first at `from`. */
  predicate Consecutive(blocks: seq<Filed>, from: int) {
    blocks == [] ||
    (var n := |blocks| - 1;
     Consecutive(blocks[..n], from) && blocks[n].lba == EndOf(blocks[..n], from) && blocks[n].sectors > 0)
  }

  function Log(blocks: seq<Filed>): Intervals {
    if blocks == [] then Intervals([], None)
    else
      var b := blocks[|blocks| - 1];
      Update(Log(blocks[..|blocks| - 1]), b.lba, b.lba + b.sectors - 1, b.kind)
  }

  /** The list after the flush at the end of the scan. */
  function Final(blocks: seq<Filed>): seq<Interval> {
    All(Log(blocks))
  }

  function All(s: Intervals): seq<Interval> {
    if s.open.Some? then s.done + [s.open.value] else s.done
  }

  /** Some interval of this kind contains the sector. */
  ghost predicate Listed(list: seq<Interval>, k: int, kind: int) {
    exists i :: 0 <= i < |list| && Spans(list[i], k) && list[i].kind == kind
  }

  /** Some block of this kind contains the sector. */
  ghost predicate Classified(blocks: seq<Filed>, k: int, kind: int) {
    exists i :: 0 <= i < |blocks| && Holds(blocks[i], k) && blocks[i].kind == kind
  }

  /** Ascending, disjoint, and maximal: touching neighbours differ in kind. */
  ghost predicate Maximal(list: seq<Interval>) {
    && (forall i | 0 <= i < |list| :: list[i].begin <= list[i].end && list[i].kind != FINE)
    && (forall i, j | 0 <= i < j < |list| :: list[i].end < list[j].begin)
    && (forall i | 0 <= i < |list| - 1 :: list[i].end + 1 == list[i + 1].begin ==> list[i].kind != list[i + 1].kind)
  }

  /** The shape after the blocks so far: a maximal list inside what was scanned; an open
      interval reaches the last sector scanned, and without one the list stops short of it. */
  ghost predicate LogShape(s: Intervals, from: int, end: int) {
    && Maximal(All(s))
    && (forall i | 0 <= i < |All(s)| :: from <= All(s)[i].begin && All(s)[i].end < end)
    && (s.open.Some? ==> s.open.value.end == end - 1)
    && (s.open.None? ==> forall i | 0 <= i < |s.done| :: s.done[i].end < end - 1)
  }

  /** One more block changes the list at its end only. */
  lemma UpdateAll(s: Intervals, b: Filed)
    ensures var s' := Update(s, b.lba, b.lba + b.sectors - 1, b.kind);
            if b.kind == FINE then All(s') == All(s)
            else if s.open.Some? && s.open.value.kind == b.kind && s.open.value.end + 1 == b.lba
            then All(s') == s.done + [s.open.value.(end := b.lba + b.sectors - 1)]
            else All(s') == All(s) + [Interval(b.lba, b.lba + b.sectors - 1, b.kind)]
  {
  }

  ghost predicate DefectKinds(list: seq<Interval>) {
    forall i | 0 <= i < |list| :: SEVERE <= list[i].kind <= SLOW
  }

  lemma UpdateKinds(s: Intervals, b: Filed)
    requires DefectKinds(All(s)) && FINE <= b.kind <= SLOW
    ensures DefectKinds(All(Update(s, b.lba, b.lba + b.sectors - 1, b.kind)))
  {
    assert s.done == All(s)[..|s.done|];
    assert s.open.Some? ==> s.open.value == All(s)[|s.done|];
  }

  lemma ExtendLast(list: seq<Interval>, end: int)
    requires Maximal(list) && list != [] && end >= list[|list| - 1].end
    ensures Maximal(list[..|list| - 1] + [list[|list| - 1].(end := end)])
  {
    var n := |list| - 1;
    var y := list[..n] + [list[n].(end := end)];
    assert forall i | 0 <= i < n :: y[i] == list[i];
    forall i | 0 <= i < |y| - 1 && y[i].end + 1 == y[i + 1].begin ensures y[i].kind != y[i + 1].kind {
      assert list[i].end + 1 == list[i + 1].begin;
    }
  }

  lemma AppendNew(list: seq<Interval>, i: Interval)
    requires Maximal(list) && i.begin <= i.end && i.kind != FINE
    requires forall j | 0 <= j < |list| :: list[j].end < i.begin
    requires list != [] && list[|list| - 1].end + 1 == i.begin ==> list[|list| - 1].kind != i.kind
    ensures Maximal(list + [i])
  {
    var y := list + [i];
    assert forall j | 0 <= j < |list| :: y[j] == list[j];
    forall j | 0 <= j < |y| - 1 && y[j].end + 1 == y[j + 1].begin ensures y[j].kind != y[j + 1].kind {
      if j < |list| - 1 { assert list[j].end + 1 == list[j + 1].begin; }
    }
  }

  lemma UpdateShape(s: Intervals, from: int, end: int, b: Filed)
    requires LogShape(s, from, end) && from <= end && b.lba == end && b.sectors > 0
    ensures LogShape(Update(s, b.lba, b.lba + b.sectors - 1, b.kind), from, end + b.sectors)
  {
    hide Maximal;
    UpdateAll(s, b);
    var all := All(s);
    if b.kind != FINE {
      if s.open.Some? && b.kind == s.open.value.kind {
        assert all[..|all| - 1] == s.done && all[|all| - 1] == s.open.value;
        ExtendLast(all, b.lba + b.sectors - 1);
      } else {
        assert s.open.Some? ==> all[|all| - 1] == s.open.value;
        AppendNew(all, Interval(b.lba, b.lba + b.sectors - 1, b.kind));
      }
    }
  }

  lemma NothingShape(from: int)
    ensures LogShape(Log([]), from, from)
  {
  }

  lemma {:induction false} LogKeepsShape(blocks: seq<Filed>, from: int)
    requires Consecutive(blocks, from)
    ensures LogShape(Log(blocks), from, EndOf(blocks, from)) && from <= EndOf(blocks, from)
  {
    hide LogShape, Update;
    if blocks == [] {
      NothingShape(from);
    } else {
      var rest := blocks[..|blocks| - 1];
      LogKeepsShape(rest, from);
      UpdateShape(Log(rest), from, EndOf(rest, from), blocks[|blocks| - 1]);
    }
  }

  lemma ListedAppend(list: seq<Interval>, i: Interval, k: int, kind: int)
    ensures Listed(list + [i], k, kind) <==> Listed(list, k, kind) || (Spans(i, k) && i.kind == kind)
  {
    var both := list + [i];
    if Listed(list, k, kind) {
      var m :| 0 <= m < |list| && Spans(list[m], k) && list[m].kind == kind;
      assert both[m] == list[m];
    }
    if Spans(i, k) && i.kind == kind { assert both[|list|] == i; }
  }

  lemma ClassifiedAppend(blocks: seq<Filed>, b: Filed, k: int, kind: int)
    ensures Classified(blocks + [b], k, kind) <==> Classified(blocks, k, kind) || (Holds(b, k) && b.kind == kind)
  {
    var both := blocks + [b];
    if Classified(blocks, k, kind) {
      var m :| 0 <= m < |blocks| && Holds(blocks[m], k) && blocks[m].kind == kind;
      assert both[m] == blocks[m];
    }
    if Holds(b, k) && b.kind == kind { assert both[|blocks|] == b; }
  }

  lemma UpdateListed(s: Intervals, b: Filed, from: int, k: int, kind: int)
    requires LogShape(s, from, b.lba) && b.sectors > 0 && kind != FINE
    ensures Listed(All(Update(s, b.lba, b.lba + b.sectors - 1, b.kind)), k, kind) <==>
            (Listed(All(s), k, kind) || (Holds(b, k) && b.kind == kind))
  {
    UpdateAll(s, b);
    if b.kind != FINE {
      if s.open.Some? {
        assert All(s)[|s.done|] == s.open.value;
        ListedAppend(s.done, s.open.value, k, kind);
        ListedAppend(s.done, s.open.value.(end := b.lba + b.sectors - 1), k, kind);
      }
      ListedAppend(All(s), Interval(b.lba, b.lba + b.sectors - 1, b.kind), k, kind);
    }
  }

  lemma {:induction false} LogExact(blocks: seq<Filed>, from: int, k: int, kind: int)
    requires Consecutive(blocks, from) && kind != FINE
    ensures Listed(All(Log(blocks)), k, kind) <==> Classified(blocks, k, kind)
  {
    hide LogShape, Update;
    if blocks != [] {
      var rest, b := blocks[..|blocks| - 1], blocks[|blocks| - 1];
      LogExact(rest, from, k, kind);
      LogKeepsShape(rest, from);
      UpdateListed(Log(rest), b, from, k, kind);
      ClassifiedAppend(rest, b, k, kind);
      assert rest + [b] == blocks;
    }
  }

  // ----- sector counts and ends -----

  function ListedSectors(list: seq<Interval>, kind: int): int {
    if list == [] then 0
    else
      var i := list[|list| - 1];
      ListedSectors(list[..|list| - 1], kind) + if i.kind == kind then i.end - i.begin + 1 else 0
  }

  function FiledSectors(blocks: seq<Filed>, kind: int): int {
    if blocks == [] then 0
    else
      var b := blocks[|blocks| - 1];
      FiledSectors(blocks[..|blocks| - 1], kind) + if b.kind == kind then b.sectors else 0
  }

  lemma ListedSectorsAppend(list: seq<Interval>, i: Interval, kind: int)
    ensures ListedSectors(list + [i], kind)
         == ListedSectors(list, kind) + if i.kind == kind then i.end - i.begin + 1 else 0
  {
    assert (list + [i])[..|list|] == list;
  }

  lemma UpdateCounts(s: Intervals, b: Filed, kind: int)
    requires kind != FINE
    ensures ListedSectors(All(Update(s, b.lba, b.lba + b.sectors - 1, b.kind)), kind)
         == ListedSectors(All(s), kind) + if b.kind == kind then b.sectors else 0
  {
    hide Update, ListedSectors;
    UpdateAll(s, b);
    if s.open.Some? {
      ListedSectorsAppend(s.done, s.open.value, kind);
      ListedSectorsAppend(s.done, s.open.value.(end := b.lba + b.sectors - 1), kind);
    }
    ListedSectorsAppend(All(s), Interval(b.lba, b.lba + b.sectors - 1, b.kind), kind);
  }

  lemma {:induction false} LogCounts(blocks: seq<Filed>, kind: int)
    requires kind != FINE
    ensures ListedSectors(All(Log(blocks)), kind) == FiledSectors(blocks, kind)
  {
    hide Update, All;
    if blocks != [] {
      LogCounts(blocks[..|blocks| - 1], kind);
      UpdateCounts(Log(blocks[..|blocks| - 1]), blocks[|blocks| - 1], kind);
    } else {
      assert All(Log(blocks)) == [] by { NothingLogged(); }
    }
  }

  lemma NothingLogged()
    ensures All(Log([])) == []
  {
  }

  /** Begin of the first interval of a kind. */
  function FirstBegin(list: seq<Interval>, kind: int): Option<int> {
    if list == [] then None
    else
      var r := FirstBegin(list[..|list| - 1], kind);
      if r.None? && list[|list| - 1].kind == kind then Some(list[|list| - 1].begin) else r
  }

  /** End of the last interval of a kind, or `none`. */
  function LastEnd(list: seq<Interval>, kind: int, none: int): int {
    if list == [] then none
    else if list[|list| - 1].kind == kind then list[|list| - 1].end
    else LastEnd(list[..|list| - 1], kind, none)
  }

  function FirstLba(blocks: seq<Filed>, kind: int): Option<int> {
    if blocks == [] then None
    else
      var r := FirstLba(blocks[..|blocks| - 1], kind);
      if r.None? && blocks[|blocks| - 1].kind == kind then Some(blocks[|blocks| - 1].lba) else r
  }

  function LastLba(blocks: seq<Filed>, kind: int, none: int): int {
    if blocks == [] then none
    else if blocks[|blocks| - 1].kind == kind then blocks[|blocks| - 1].lba + blocks[|blocks| - 1].sectors - 1
    else LastLba(blocks[..|blocks| - 1], kind, none)
  }

  lemma EndsAppend(list: seq<Interval>, i: Interval, kind: int, none: int)
    ensures var r := FirstBegin(list, kind);
            FirstBegin(list + [i], kind) == if r.None? && i.kind == kind then Some(i.begin) else r
    ensures LastEnd(list + [i], kind, none) == if i.kind == kind then i.end else LastEnd(list, kind, none)
  {
    assert (list + [i])[..|list|] == list;
  }

  lemma UpdateEnds(s: Intervals, b: Filed, from: int, kind: int, none: int)
    requires LogShape(s, from, b.lba) && b.sectors > 0 && kind != FINE
    ensures var all, all' := All(s), All(Update(s, b.lba, b.lba + b.sectors - 1, b.kind));
            && (var r := FirstBegin(all, kind);
                FirstBegin(all', kind) == if r.None? && b.kind == kind then Some(b.lba) else r)
            && LastEnd(all', kind, none) == (if b.kind == kind then b.lba + b.sectors - 1 else LastEnd(all, kind, none))
  {
    hide Update, FirstBegin, LastEnd;
    UpdateAll(s, b);
    if s.open.Some? {
      assert All(s)[|s.done|] == s.open.value;
      EndsAppend(s.done, s.open.value, kind, none);
      EndsAppend(s.done, s.open.value.(end := b.lba + b.sectors - 1), kind, none);
    }
    EndsAppend(All(s), Interval(b.lba, b.lba + b.sectors - 1, b.kind), kind, none);
  }

  lemma {:induction false} LogEnds(blocks: seq<Filed>, from: int, kind: int, none: int)
    requires Consecutive(blocks, from) && kind != FINE
    ensures FirstBegin(All(Log(blocks)), kind) == FirstLba(blocks, kind)
    ensures LastEnd(All(Log(blocks)), kind, none) == LastLba(blocks, kind, none)
  {
    hide Update, All, LogShape;
    if blocks != [] {
      var rest, b := blocks[..|blocks| - 1], blocks[|blocks| - 1];
      LogEnds(rest, from, kind, none);
      LogKeepsShape(rest, from);
      UpdateEnds(Log(rest), b, from, kind, none);
    } else {
      assert All(Log(blocks)) == [] by { NothingLogged(); }
    }
  }

  /** The defect list is the exact maximal run-length encoding of the scan: a sector is listed
      under a kind exactly when its block was filed under it, intervals ascend without overlap,
      touching neighbours differ in kind, and the sectors listed are the sectors filed. */
  lemma DefectListExact(blocks: seq<Filed>, from: int)
    requires Consecutive(blocks, from)
    ensures Maximal(Final(blocks))
    ensures forall k, kind | kind != FINE :: Listed(Final(blocks), k, kind) <==> Classified(blocks, k, kind)
    ensures forall kind | kind != FINE :: ListedSectors(Final(blocks), kind) == FiledSectors(blocks, kind)
  {
    LogKeepsShape(blocks, from);
    forall k, kind | kind != FINE ensures Listed(Final(blocks), k, kind) <==> Classified(blocks, k, kind) {
      LogExact(blocks, from, k, kind);
    }
    forall kind | kind != FINE ensures ListedSectors(Final(blocks), kind) == FiledSectors(blocks, kind) {
      LogCounts(blocks, kind);
    }
  }

  /** The first `n` intervals of two maximal encodings of one classification agree. */
  lemma MaximalUnique(a: seq<Interval>, b: seq<Interval>, n: nat)
    requires Maximal(a) && Maximal(b) && n <= |a|
    requires forall k, kind | kind != FINE :: Listed(a, k, kind) <==> Listed(b, k, kind)
    ensures n <= |b| && forall i | 0 <= i < n :: a[i] == b[i]
  {
    if n > 0 {
      MaximalUnique(a, b, n - 1);
      BeginsNoLater(a, b, n - 1);
      BeginsNoLater(b, a, n - 1);
      EndsNoLater(a, b, n - 1);
      EndsNoLater(b, a, n - 1);
    }
  }

  lemma BeginsNoLater(a: seq<Interval>, b: seq<Interval>, i: nat)
    requires Maximal(a) && Maximal(b) && i < |a| && i <= |b|
    requires forall k, kind | kind != FINE :: Listed(a, k, kind) <==> Listed(b, k, kind)
    requires forall j | 0 <= j < i :: a[j] == b[j]
    ensures i < |b| && b[i].begin <= a[i].begin
    ensures b[i].begin == a[i].begin ==> b[i].kind == a[i].kind
  {
    assert Spans(a[i], a[i].begin);
    assert Listed(b, a[i].begin, a[i].kind);
    var m :| 0 <= m < |b| && Spans(b[m], a[i].begin) && b[m].kind == a[i].kind;
  }

  lemma EndsNoLater(a: seq<Interval>, b: seq<Interval>, i: nat)
    requires Maximal(a) && Maximal(b) && i < |a| && i < |b|
    requires forall k, kind | kind != FINE :: Listed(a, k, kind) <==> Listed(b, k, kind)
    requires a[i].begin == b[i].begin && a[i].kind == b[i].kind
    ensures b[i].end <= a[i].end
  {
    NotListedAfter(a, i);
    if b[i].end > a[i].end { assert Spans(b[i], a[i].end + 1); }
  }

  lemma NotListedAfter(a: seq<Interval>, i: nat)
    requires Maximal(a) && i < |a|
    ensures !Listed(a, a[i].end + 1, a[i].kind)
  {
    forall m | 0 <= m < |a| ensures !(Spans(a[m], a[i].end + 1) && a[m].kind == a[i].kind) {
      if m > i + 1 {
        assert a[i].end < a[i + 1].begin <= a[i + 1].end < a[m].begin;
      } else if m < i {
        assert a[m].end < a[i].begin;
      }
    }
  }

  /** There is only one maximal encoding of a classification. */
  lemma MaximalIsUnique(a: seq<Interval>, b: seq<Interval>)
    requires Maximal(a) && Maximal(b)
    requires forall k, kind | kind != FINE :: Listed(a, k, kind) <==> Listed(b, k, kind)
    ensures a == b
  {
    MaximalUnique(a, b, |a|);
    MaximalUnique(b, a, |b|);
  }
}
