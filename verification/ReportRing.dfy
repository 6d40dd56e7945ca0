/** The ring between the procedure thread and the render thread, step by interleaved step. */
module ReportRing {
  const SLOTS := 100 * 1000

  /** A slot holds a report, or is being overwritten. */
  datatype Cell<R> = Torn | Whole(report: R)

  /** The procedure thread: between reports, filling slot `write`, or about to publish it. */
  datatype Writer<R> = Idle | Filling(report: R) | Filled(report: R)

  /** The render thread: at its loop test, about to read the queue length, with `left` reports to
      fetch, holding slot `read - 1` whose report it uses, or gone. `last` says it has seen the
      hangup. */
  datatype Reader = Top | Tested(last: bool) | Draining(left: int, last: bool) | Using(left: int, last: bool) | Exited

  /** `produced` and `consumed` are history. */
  datatype Machine<R> = Machine(slots: seq<Cell<R>>, write: nat, read: nat, writer: Writer<R>, reader: Reader,
                                hangup: bool, produced: seq<R>, consumed: seq<Cell<R>>)

  datatype Action<R> =
    | Begin(report: R)        // blk_rep_get_next_for_write, and the copy into the slot begins
    | EndFill                 // the copy ends
    | Publish                 // blk_rep_write_finalize
    | HangUp                  // Close
    | Test                    // the loop test
    | Measure                 // the queue length, read once for the drain
    | Finish                  // the drain is done: the next loop test, or the end
    | Take                    // blk_rep_read
    | Use                     // the report is counted

  function Initial<R>(slots: seq<Cell<R>>): Machine<R> {
    Machine(slots, 0, 0, Idle, Top, false, [], [])
  }

  predicate Enabled<R>(m: Machine<R>, a: Action<R>) {
    match a
    case Begin(_) => m.writer.Idle? && !m.hangup
    case EndFill => m.writer.Filling?
    case Publish => m.writer.Filled?
    case HangUp => m.writer.Idle? && !m.hangup
    case Test => m.reader.Top?
    case Measure => m.reader.Tested?
    case Finish => m.reader.Draining? && m.reader.left <= 0
    case Take => m.reader.Draining? && m.reader.left > 0
    case Use => m.reader.Using?
  }

  /** There is a slot to spare besides the one the reader may still hold. */
  predicate Spare<R>(m: Machine<R>) {
    m.write - m.read <= 99998
  }

  function Act<R>(m: Machine<R>, a: Action<R>): Machine<R>
    requires |m.slots| == SLOTS && Enabled(m, a)
  {
    match a
    case Begin(r) => m.(slots := m.slots[m.write % SLOTS := Torn], writer := Filling(r))
    case EndFill => m.(slots := m.slots[m.write % SLOTS := Whole(m.writer.report)], writer := Filled(m.writer.report))
    case Publish => m.(write := m.write + 1, writer := Idle, produced := m.produced + [m.writer.report])
    case HangUp => m.(hangup := true)
    case Test => m.(reader := Tested(m.hangup))
    case Measure => m.(reader := Draining(m.write - m.read, m.reader.last))
    case Finish => m.(reader := if m.reader.last then Exited else Top)
    case Take => m.(read := m.read + 1, reader := Using(m.reader.left, m.reader.last))
    case Use =>
      m.(consumed := m.consumed + [m.slots[(m.read + SLOTS - 1) % SLOTS]],
         reader := Draining(m.reader.left - 1, m.reader.last))
  }

  /** Reports fetched and no longer held. */
  function Released<R>(m: Machine<R>): int {
    if m.reader.Using? then m.read - 1 else m.read
  }

  // ----- what every interleaving keeps -----

  ghost predicate Counters<R>(m: Machine<R>) {
    && |m.slots| == SLOTS && |m.produced| == m.write
    && 0 <= Released(m) && m.read <= m.write && m.write - Released(m) <= SLOTS
    && (!m.writer.Idle? ==> m.write - Released(m) <= SLOTS - 1 && !m.hangup)
  }

  ghost predicate ReaderSound<R>(m: Machine<R>) {
    && (m.reader.Draining? ==> 0 <= m.reader.left <= m.write - m.read)
    && (m.reader.Using? ==> 1 <= m.reader.left <= m.write - m.read + 1)
    && ((m.reader.Tested? || m.reader.Draining? || m.reader.Using?) && m.reader.last ==> m.hangup)
    && (m.reader.Draining? && m.reader.last ==> m.reader.left == m.write - m.read)
    && (m.reader.Using? && m.reader.last ==> m.reader.left == m.write - m.read + 1)
    && (m.reader.Exited? ==> m.hangup && m.read == m.write)
  }

  /** Every report not yet released sits whole in its slot. */
  ghost predicate Stored<R>(m: Machine<R>)
    requires |m.slots| == SLOTS && |m.produced| == m.write
  {
    forall i | Released(m) <= i < m.write && 0 <= i :: m.slots[i % SLOTS] == Whole(m.produced[i])
  }

  ghost predicate Delivered<R>(m: Machine<R>)
    requires |m.produced| == m.write
  {
    && |m.consumed| == Released(m) <= m.write
    && forall i | 0 <= i < |m.consumed| :: m.consumed[i] == Whole(m.produced[i])
  }

  ghost predicate Inv<R>(m: Machine<R>) {
    && Counters(m) && ReaderSound(m) && Stored(m) && Delivered(m)
    && (m.writer.Filled? ==> m.slots[m.write % SLOTS] == Whole(m.writer.report))
  }

  lemma SlotsDiffer(a: int, b: int)
    requires 0 <= a < b && b - a < SLOTS
    ensures a % SLOTS != b % SLOTS
  {
  }

  lemma FillKeeps<R>(m: Machine<R>, cell: Cell<R>)
    requires Counters(m) && Stored(m) && m.write - Released(m) <= SLOTS - 1
    ensures Stored(m.(slots := m.slots[m.write % SLOTS := cell]))
  {
    var m' := m.(slots := m.slots[m.write % SLOTS := cell]);
    forall i | Released(m') <= i < m'.write && 0 <= i ensures m'.slots[i % SLOTS] == Whole(m'.produced[i]) {
      SlotsDiffer(i, m.write);
    }
  }

  lemma HeldSlot(read: nat)
    requires read > 0
    ensures (read + SLOTS - 1) % SLOTS == (read - 1) % SLOTS
  {
  }

  lemma FillingKeeps<R>(m: Machine<R>, a: Action<R>)
    requires Inv(m) && Enabled(m, a) && (a.Begin? || a.EndFill?) && (a.Begin? ==> Spare(m))
    ensures Inv(Act(m, a))
  {
    FillKeeps(m, if a.Begin? then Torn else Whole(m.writer.report));
  }

  lemma PublishKeeps<R>(m: Machine<R>)
    requires Inv(m) && Enabled(m, Publish)
    ensures Inv(Act(m, Publish))
  {
  }

  lemma UseKeeps<R>(m: Machine<R>)
    requires Inv(m) && Enabled(m, Use)
    ensures Inv(Act(m, Use))
  {
    HeldSlot(m.read);
    var held := m.slots[(m.read - 1) % SLOTS];
    assert held == Whole(m.produced[m.read - 1]);
    assert Act(m, Use).consumed == m.consumed + [held];
  }

  /** The actions that touch neither slots nor reports. */
  lemma ReaderKeeps<R>(m: Machine<R>, a: Action<R>)
    requires Inv(m) && Enabled(m, a) && (a.HangUp? || a.Test? || a.Measure? || a.Finish? || a.Take?)
    ensures Inv(Act(m, a))
  {
  }

  lemma ActKeeps<R>(m: Machine<R>, a: Action<R>)
    requires Inv(m) && Enabled(m, a) && (a.Begin? ==> Spare(m))
    ensures Inv(Act(m, a))
  {
    hide Inv, Act;
    match a
    case Begin(_) => FillingKeeps(m, a);
    case EndFill => FillingKeeps(m, a);
    case Publish => PublishKeeps(m);
    case HangUp => ReaderKeeps(m, a);
    case Test => ReaderKeeps(m, a);
    case Measure => ReaderKeeps(m, a);
    case Finish => ReaderKeeps(m, a);
    case Take => ReaderKeeps(m, a);
    case Use => UseKeeps(m);
  }

  function RunActions<R>(m: Machine<R>, actions: seq<Action<R>>): Machine<R>
    requires |m.slots| == SLOTS
    decreases |actions|
  {
    if actions == [] || !Enabled(m, actions[0]) then m else RunActions(Act(m, actions[0]), actions[1..])
  }

  /** Every fill of the run begins with at most 99998 reports outstanding. */
  predicate FillsFit<R>(m: Machine<R>, actions: seq<Action<R>>)
    requires |m.slots| == SLOTS
    decreases |actions|
  {
    actions == [] || !Enabled(m, actions[0]) ||
    ((actions[0].Begin? ==> m.write - m.read <= 99998) && FillsFit(Act(m, actions[0]), actions[1..]))
  }

  /** For every interleaving of the two threads in which each fill began with at most 99998
      reports outstanding: the reports used so far are the reports published, whole, in order,
      each once; and once the render thread has gone, all of them have been used. */
  lemma {:induction false} RingDelivers<R>(m: Machine<R>, actions: seq<Action<R>>)
    requires Inv(m) && FillsFit(m, actions)
    ensures Inv(RunActions(m, actions))
    ensures var f := RunActions(m, actions);
            && |f.consumed| <= |f.produced|
            && (forall i | 0 <= i < |f.consumed| :: f.consumed[i] == Whole(f.produced[i]))
            && (f.reader.Exited? ==> |f.consumed| == |f.produced|)
    decreases |actions|
  {
    hide Act;
    if actions != [] && Enabled(m, actions[0]) {
      ActKeeps(m, actions[0]);
      RingDelivers(Act(m, actions[0]), actions[1..]);
    }
  }

  /** What was handed on, once it is known to be whole. */
  function Contents<R>(cells: seq<Cell<R>>): seq<R>
    requires forall i | 0 <= i < |cells| :: cells[i].Whole?
  {
    seq(|cells|, i requires 0 <= i < |cells| => cells[i].report)
  }

  /** The ring starts in a state the guarantee applies to, whatever is in its slots. */
  lemma InitialInv<R>(slots: seq<Cell<R>>)
    requires |slots| == SLOTS
    ensures Inv(Initial(slots))
  {
  }

  /** The bound is tight: with one more report outstanding, and only then, the next fill hits
      the slot the reader is using, which then hands on a torn report. */
  lemma BoundIsTight<R>(m: Machine<R>, r: R)
    requires Inv(m) && m.reader.Using? && Enabled(m, Begin(r))
    ensures (Act(Act(m, Begin(r)), Use).consumed != m.consumed + [Whole(m.produced[m.read - 1])])
       <==> m.write - m.read >= 99999
  {
    HeldSlot(m.read);
    var m1 := Act(m, Begin(r));
    var used := m1.slots[(m.read - 1) % SLOTS];
    assert Act(m1, Use).consumed == m.consumed + [used];
    assert m.slots[(m.read - 1) % SLOTS] == Whole(m.produced[m.read - 1]);
    if Spare(m) {
      SlotsDiffer(m.read - 1, m.write);
    } else {
      assert m.write == m.read - 1 + SLOTS && used == Torn;
      assert (m.consumed + [used])[|m.consumed|] != Whole(m.produced[m.read - 1]);
    }
  }

  // ----- the threads get on -----

  /** Neither thread ever waits for the other: until the hangup the procedure thread can begin any report
      and finish it, or hang up between two; the drawing thread always has exactly one next action until it
      has gone. */
  lemma NobodyWaits<R>(m: Machine<R>, r: R)
    requires Inv(m)
    ensures m.writer.Idle? && !m.hangup <==> Enabled(m, Begin(r))
    ensures m.writer.Idle? && !m.hangup <==> Enabled(m, HangUp)
    ensures m.writer.Filling? <==> Enabled(m, EndFill)
    ensures m.writer.Filled? <==> Enabled(m, Publish)
    ensures var next := [Test, Measure, Take, Use, Finish];
            if m.reader.Exited? then forall i | 0 <= i < 5 :: !Enabled(m, next[i])
            else exists i | 0 <= i < 5 :: Enabled(m, next[i]) && forall j | 0 <= j < 5 && j != i :: !Enabled(m, next[j])
  {
    var next: seq<Action<R>> := [Test, Measure, Take, Use, Finish];
    if !m.reader.Exited? {
      var i := match m.reader
        case Top => 0
        case Tested(_) => 1
        case Draining(left, _) => if left > 0 then 2 else 4
        case Using(_, _) => 3
        case Exited => 0;
      assert Enabled(m, next[i]) && forall j | 0 <= j < 5 && j != i :: !Enabled(m, next[j]);
    }
  }

  lemma RunFirst<R>(m: Machine<R>, a: Action<R>, rest: seq<Action<R>>)
    requires |m.slots| == SLOTS && Enabled(m, a)
    ensures RunActions(m, [a] + rest) == RunActions(Act(m, a), rest)
    ensures FillsFit(m, [a] + rest) <==> (a.Begin? ==> m.write - m.read <= 99998) && FillsFit(Act(m, a), rest)
  {
    assert ([a] + rest)[1..] == rest;
  }

  /** Fetch and use so many reports. */
  function Drain<R>(n: nat): seq<Action<R>> {
    if n == 0 then [] else [Take] + ([Use] + Drain(n - 1))
  }

  /** The machine after so many reports have been fetched and used. */
  function Drained<R>(m: Machine<R>, n: nat): Machine<R>
    requires m.reader.Draining? && m.read + n <= |m.produced|
  {
    m.(read := m.read + n, reader := Draining(m.reader.left - n, m.reader.last),
       consumed := m.consumed + seq(n, i requires 0 <= i < n => Whole(m.produced[m.read + i])))
  }

  lemma {:induction false} DrainRuns<R>(m: Machine<R>, n: nat, rest: seq<Action<R>>)
    requires Inv(m) && m.reader.Draining? && m.reader.left == n
    ensures Inv(Drained(m, n))
    ensures RunActions(m, Drain(n) + rest) == RunActions(Drained(m, n), rest)
    ensures FillsFit(m, Drain(n) + rest) <==> FillsFit(Drained(m, n), rest)
    decreases n
  {
    hide Inv;
    InvParts(m);
    if n == 0 {
      assert Drained(m, 0) == m && Drain<R>(0) + rest == rest;
    } else {
      var later := Drain<R>(n - 1) + rest;
      assert Drain(n) + rest == [Take] + ([Use] + later);
      RunFirst(m, Take, [Use] + later);
      ActKeeps(m, Take);
      var held := Act(m, Take);
      RunFirst(held, Use, later);
      ActKeeps(held, Use);
      var next := Act(held, Use);
      UseIsHeld(held);
      DrainRuns(next, n - 1, rest);
      DrainedOnce(m, next, n);
    }
  }

  lemma InvParts<R>(m: Machine<R>)
    requires Inv(m)
    ensures |m.slots| == SLOTS && |m.produced| == m.write && m.read <= m.write
    ensures m.reader.Draining? ==> 0 <= m.reader.left <= m.write - m.read
    ensures (m.reader.Draining? || m.reader.Using?) && m.reader.last ==> m.hangup
    ensures m.reader.Exited? ==> m.hangup
  {
  }

  lemma UseIsHeld<R>(m: Machine<R>)
    requires Inv(m) && m.reader.Using?
    ensures 0 < m.read <= |m.produced| && Act(m, Use).consumed == m.consumed + [Whole(m.produced[m.read - 1])]
  {
    HeldSlot(m.read);
  }

  lemma DrainedOnce<R>(m: Machine<R>, next: Machine<R>, n: nat)
    requires m.reader.Draining? && n > 0 && m.read + n <= |m.produced|
    requires next == m.(read := m.read + 1, reader := Draining(m.reader.left - 1, m.reader.last),
                        consumed := m.consumed + [Whole(m.produced[m.read])])
    ensures Drained(next, n - 1) == Drained(m, n)
  {
    var a, b := Drained(next, n - 1).consumed, Drained(m, n).consumed;
    assert |a| == |b| && forall i | 0 <= i < |a| :: a[i] == b[i];
  }

  /** One round of the drawing thread: whatever the other thread is doing, it fetches exactly the reports
      that were published, each whole; after the hangup it is then gone, before it back at its loop test. */
  lemma RoundDrains<R>(m: Machine<R>)
    requires Inv(m) && m.reader.Top?
    ensures |m.produced| == m.write && m.read <= m.write
    ensures var n := m.write - m.read;
            RunActions(m, [Test] + ([Measure] + (Drain(n) + [Finish]))) ==
            m.(read := m.write, reader := if m.hangup then Exited else Top,
               consumed := m.consumed + seq(n, i requires 0 <= i < n => Whole(m.produced[m.read + i])))
  {
    hide Inv;
    InvParts(m);
    var none: seq<Action<R>> := [];
    RoundRuns(m, none);
    assert [Finish] + none == [Finish];
    assert RunActions(AfterRound(m), none) == AfterRound(m);
  }

  function AfterRound<R>(m: Machine<R>): Machine<R>
    requires |m.produced| == m.write && m.read <= m.write
  {
    var n := m.write - m.read;
    m.(read := m.write, reader := if m.hangup then Exited else Top,
       consumed := m.consumed + seq(n, i requires 0 <= i < n => Whole(m.produced[m.read + i])))
  }

  function Round<R>(n: nat, rest: seq<Action<R>>): seq<Action<R>> {
    [Test] + ([Measure] + (Drain(n) + ([Finish] + rest)))
  }

  lemma RoundRuns<R>(m: Machine<R>, rest: seq<Action<R>>)
    requires Inv(m) && m.reader.Top?
    ensures |m.produced| == m.write && m.read <= m.write && Inv(AfterRound(m))
    ensures RunActions(m, Round(m.write - m.read, rest)) == RunActions(AfterRound(m), rest)
    ensures FillsFit(m, Round(m.write - m.read, rest)) <==> FillsFit(AfterRound(m), rest)
  {
    hide Inv;
    InvParts(m);
    var n := m.write - m.read;
    var end := [Finish] + rest;
    RunFirst(m, Test, [Measure] + (Drain(n) + end));
    ActKeeps(m, Test);
    var tested := Act(m, Test);
    RunFirst(tested, Measure, Drain(n) + end);
    ActKeeps(tested, Measure);
    var draining := Act(tested, Measure);
    DrainRuns(draining, n, end);
    var drained := Drained(draining, n);
    RunFirst(drained, Finish, rest);
    ActKeeps(drained, Finish);
    assert Act(drained, Finish) == AfterRound(m);
  }

  /** Both threads taking turns: each report is filled in, published and used before the next one. */
  function TakingTurns<R>(reports: seq<R>): seq<Action<R>> {
    if reports == [] then [HangUp] + Round(0, [])
    else [Begin(reports[0])] + ([EndFill] + ([Publish] + Round(1, TakingTurns(reports[1..]))))
  }

  lemma {:induction false} TurnsDeliver<R>(m: Machine<R>, reports: seq<R>)
    requires Inv(m) && m.reader.Top? && m.writer.Idle? && !m.hangup && m.read == m.write
    ensures FillsFit(m, TakingTurns(reports))
    ensures var f := RunActions(m, TakingTurns(reports)); f.reader.Exited? && f.produced == m.produced + reports
    decreases |reports|
  {
    hide Inv;
    InvParts(m);
    if reports == [] {
      RunFirst(m, HangUp, Round(0, []));
      ActKeeps(m, HangUp);
      RoundRuns(Act(m, HangUp), []);
    } else {
      var rest := Round(1, TakingTurns(reports[1..]));
      RunFirst(m, Begin(reports[0]), [EndFill] + ([Publish] + rest));
      ActKeeps(m, Begin(reports[0]));
      var filling := Act(m, Begin(reports[0]));
      RunFirst(filling, EndFill, [Publish] + rest);
      ActKeeps(filling, EndFill);
      var filled := Act(filling, EndFill);
      RunFirst(filled, Publish, rest);
      ActKeeps(filled, Publish);
      var published := Act(filled, Publish);
      RoundRuns(published, TakingTurns(reports[1..]));
      TurnsDeliver(AfterRound(published), reports[1..]);
      assert m.produced + [reports[0]] + reports[1..] == m.produced + reports;
    }
  }

  /** Whatever the reports, some interleaving within the bound publishes them all and ends with the
      drawing thread gone. */
  lemma SomeRunDelivers<R>(slots: seq<Cell<R>>, reports: seq<R>)
    requires |slots| == SLOTS
    ensures var m, actions := Initial(slots), TakingTurns(reports);
            FillsFit(m, actions) && RunActions(m, actions).reader.Exited? && RunActions(m, actions).produced == reports
  {
    InitialInv(slots);
    TurnsDeliver(Initial(slots), reports);
    assert [] + reports == reports;
  }
}
