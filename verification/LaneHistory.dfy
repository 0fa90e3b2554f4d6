// FIFO serialization: pops follow pushes, the lane's rows follow pops, and the
// service intervals on one lane are disjoint and ordered in time.
module LaneHistory {
  import opened Basics
  import opened TokenSpec
  import opened LaneMachine
  import opened LaneInvariant
  import LaneOutcomes
  import Inversions

  // The lane itself set this request's promise.
  predicate LaneSet(c: Cell) {
    |c.rows| == 1 && c.rows[0].setter == ByLane
  }

  // `served` is the increasing list of the requests whose promise the lane set.
  ghost predicate ServedInOrder(s: State) {
    && (forall a, b :: 0 <= a < b < |s.served| ==> s.served[a] < s.served[b])
    && (forall i: nat :: i in s.served <==> i < |s.cells| && LaneSet(s.cells[i]))
  }

  // start_ns of the service under way.
  function ServiceStart(pc: LanePc): Option<int> {
    match pc
    case Boundary(_, _, t0) => Some(t0)
    case Chunk(_, _, t0) => Some(t0)
    case Finish(_, t0) => Some(t0)
    case Stamp(_, _, _, t0) => Some(t0)
    case Fulfil(_, row) => Some(row.startNs)
    case _ => None
  }

  // Every earlier row of the lane ended by time t.
  ghost predicate AllEndedBy(s: State, t: int) {
    forall i :: 0 <= i < |s.cells| && LaneSet(s.cells[i]) ==> s.cells[i].rows[0].endNs <= t
  }

  ghost predicate Disjoint(s: State) {
    && (forall i :: 0 <= i < |s.cells| && LaneSet(s.cells[i]) ==>
          s.cells[i].rows[0].startNs <= s.cells[i].rows[0].endNs)
    && (forall i, j :: 0 <= i < j < |s.cells| && LaneSet(s.cells[i]) && LaneSet(s.cells[j]) ==>
          s.cells[i].rows[0].endNs <= s.cells[j].rows[0].startNs)
  }

  ghost predicate Timed(s: State) {
    && AllEndedBy(s, s.now)
    && Disjoint(s)
    && (ServiceStart(s.pc).Some? ==> ServiceStart(s.pc).value <= s.now && AllEndedBy(s, ServiceStart(s.pc).value))
    && (s.pc.Fulfil? ==> s.pc.row.startNs <= s.pc.row.endNs <= s.now)
  }

  ghost predicate History(s: State) {
    Inv(s) && ServedInOrder(s) && Timed(s)
  }

  // A change that leaves the lane's rows, history and clock in order.
  lemma SameRows(s: State, s': State)
    requires History(s) && Inv(s')
    requires |s.cells| <= |s'.cells| && s'.served == s.served && s.now <= s'.now
    requires forall i :: 0 <= i < |s'.cells| ==>
      (LaneSet(s'.cells[i]) <==> i < |s.cells| && LaneSet(s.cells[i]))
    requires forall i :: 0 <= i < |s.cells| && LaneSet(s.cells[i]) ==> s'.cells[i].rows == s.cells[i].rows
    requires s'.pc.Fulfil? ==>
      (s.pc == s'.pc || (s.pc.Stamp? && s'.pc.row.startNs == s.pc.t0 && s'.pc.row.endNs == s'.now))
    requires ServiceStart(s'.pc).Some? ==>
      ServiceStart(s'.pc) == ServiceStart(s.pc) || ServiceStart(s'.pc).value == s.now
    ensures History(s')
  {
    forall i: nat
      ensures i in s'.served <==> i < |s'.cells| && LaneSet(s'.cells[i])
    {
      assert i in s.served <==> i < |s.cells| && LaneSet(s.cells[i]);
    }
  }

  // The request being fulfilled comes after every row the lane has set.
  lemma FulfilIsLatest(s: State)
    requires Inv(s) && s.pc.Fulfil? && Holds(s)
    ensures forall j :: 0 <= j < |s.cells| && LaneSet(s.cells[j]) ==> j < s.pc.id
    ensures s.cells[s.pc.id].rows == []
  {
    var i := s.pc.id;
    assert CellOk(s, i);
    forall j | 0 <= j < |s.cells| && LaneSet(s.cells[j])
      ensures j < i
    {
      assert CellOk(s, j);
    }
  }

  lemma FulfilServed(s: State)
    requires Inv(s) && ServedInOrder(s) && s.pc.Fulfil? && Holds(s)
    requires s.pc.row.setter == ByLane
    ensures ServedInOrder(LaneStep(s))
  {
    var s' := LaneStep(s);
    var i := s.pc.id;
    FulfilIsLatest(s);
    forall a | 0 <= a < |s.served|
      ensures s.served[a] < i
    {
      assert s.served[a] in s.served;
    }
    forall j: nat
      ensures j in s'.served <==> j < |s'.cells| && LaneSet(s'.cells[j])
    {
      assert j in s.served <==> j < |s.cells| && LaneSet(s.cells[j]);
      assert j in s'.served <==> j in s.served || j == i;
    }
  }

  lemma FulfilKeeps(s: State)
    requires History(s) && s.pc.Fulfil? && Holds(s)
    ensures History(LaneStep(s))
  {
    StepInv(s, Lane);
    assert CellOk(s, s.pc.id);
    FulfilIsLatest(s);
    FulfilServed(s);
  }

  // Only the lane's own set_value adds to the rows it set.
  lemma RowsStay(s: State, e: Event, i: nat)
    requires Inv(s) && Enabled(s, e) && i < |Step(s, e).cells| && !(e == Lane && s.pc.Fulfil?)
    ensures LaneSet(Step(s, e).cells[i]) <==> i < |s.cells| && LaneSet(s.cells[i])
    ensures i < |s.cells| && LaneSet(s.cells[i]) ==> Step(s, e).cells[i].rows == s.cells[i].rows
  {
    if i < |s.cells| {
      assert CellOk(s, i);
    }
  }

  lemma StepHistory(s: State, e: Event)
    requires History(s) && Enabled(s, e)
    ensures History(Step(s, e))
  {
    var s' := Step(s, e);
    StepInv(s, e);
    if e == Lane && s.pc.Fulfil? {
      FulfilKeeps(s);
    } else {
      forall i | 0 <= i < |s'.cells|
        ensures LaneSet(s'.cells[i]) <==> i < |s.cells| && LaneSet(s.cells[i])
        ensures i < |s.cells| && LaneSet(s.cells[i]) ==> s'.cells[i].rows == s.cells[i].rows
      {
        RowsStay(s, e, i);
      }
      SameRows(s, s');
    }
  }

  lemma {:induction false} RunHistory(s: State, es: seq<Event>)
    requires History(s) && Legal(s, es)
    ensures History(Run(s, es))
    decreases |es|
  {
    if es != [] {
      StepHistory(s, es[0]);
      RunHistory(Step(s, es[0]), es[1..]);
    }
  }

  lemma ReachableHistory(now: int, es: seq<Event>)
    requires Legal(Init(now), es)
    ensures History(Run(Init(now), es))
  {
    InitInv(now);
    RunHistory(Init(now), es);
  }

  // Requests leave the queue in the order in which they were pushed.
  lemma PopsFollowPushes(now: int, es: seq<Event>)
    requires Legal(Init(now), es)
    ensures var s := Run(Init(now), es); s.popped + s.queue == Range(0, |s.cells|)
  {
    Reachable(now, es);
  }

  // stats() is coherent: what is neither queued nor active is over, its promise
  // set or owned by a cancel() past its phase flip.
  lemma StatsAreCoherent(now: int, es: seq<Event>)
    requires Legal(Init(now), es)
    ensures var s := Run(Init(now), es);
            var over := |s.cells| - |s.queue| - (if s.active then 1 else 0);
            && 0 <= over
            && (forall i :: 0 <= i < over ==> |s.cells[i].rows| + s.cells[i].pending == 1)
            && (forall i :: |s.cells| - |s.queue| <= i < |s.cells| && s.cells[i].rows != [] ==>
                  s.cells[i].rows[0].setter == ByCancel)
  {
    Reachable(now, es);
    var s := Run(Init(now), es);
    FifoShape(s);
    var over := |s.cells| - |s.queue| - (if s.active then 1 else 0);
    forall i | 0 <= i < over
      ensures |s.cells[i].rows| + s.cells[i].pending == 1
    {
      assert CellOk(s, i);
    }
    forall i | |s.popped| <= i < |s.cells| && s.cells[i].rows != []
      ensures s.cells[i].rows[0].setter == ByCancel
    {
      assert CellOk(s, i);
    }
  }

  // At quiescence the lane's rows are the pushed order minus the queued cancels.
  lemma ServedIsPushedMinusCancelled(now: int, es: seq<Event>)
    requires Legal(Init(now), es) && LaneOutcomes.Quiescent(Run(Init(now), es))
    ensures var s := Run(Init(now), es);
            && (forall a, b :: 0 <= a < b < |s.served| ==> s.served[a] < s.served[b])
            && (forall i: nat :: i in s.served <==>
                  i < |s.cells| && LaneOutcomes.Decided(Init(now), es, i, FulfilNow) == 0)
  {
    var s := Run(Init(now), es);
    ReachableHistory(now, es);
    forall i: nat
      ensures i in s.served <==> i < |s.cells| && LaneOutcomes.Decided(Init(now), es, i, FulfilNow) == 0
    {
      if i < |s.cells| {
        LaneOutcomes.ExactlyOnce(now, es, i);
      }
    }
  }

  // Two requests the lane served, in push order: the first ended before the
  // second started. Only a queued cancel can end ahead of an earlier request.
  lemma ServiceIsSerial(now: int, es: seq<Event>, i: nat, j: nat)
    requires Legal(Init(now), es) && i < j < |Run(Init(now), es).cells|
    requires Run(Init(now), es).cells[i].rows != [] && Run(Init(now), es).cells[j].rows != []
    ensures var ri := Run(Init(now), es).cells[i].rows[0];
            var rj := Run(Init(now), es).cells[j].rows[0];
            && (ri.setter == ByLane && rj.setter == ByLane ==>
                  ri.startNs <= ri.endNs <= rj.startNs <= rj.endNs)
            && (ri.endNs > rj.endNs ==> ri.setter == ByCancel || rj.setter == ByCancel)
  {
    ReachableHistory(now, es);
    var s := Run(Init(now), es);
    assert CellOk(s, i) && CellOk(s, j);
  }

  // ---- The two clock readings of a row ----

  datatype Reading = StartNs | EndNs

  // The lane reads the clock entering service() and, once it is over, before set_value.
  predicate Reads(pc: LanePc, i: nat, which: Reading) {
    Current(pc) == Some(i) && match which case StartNs => pc.Start? case EndNs => pc.Stamp?
  }

  function ReadingOf(pc: LanePc, which: Reading): Option<int> {
    match which
    case StartNs => ServiceStart(pc)
    case EndNs => if pc.Fulfil? then Some(pc.row.endNs) else None
  }

  function InRow(row: Row, which: Reading): int {
    match which case StartNs => row.startNs case EndNs => row.endNs
  }

  predicate HoldsReading(s: State, i: nat, which: Reading) {
    Current(s.pc) == Some(i) && ReadingOf(s.pc, which).Some?
  }

  // The lane took reading t for request i; it is on its way to the row, or in it.
  predicate Carried(s: State, i: nat, which: Reading, t: int) {
    && i < |s.cells|
    && if HoldsReading(s, i, which) then ReadingOf(s.pc, which) == Some(t)
       else LaneSet(s.cells[i]) && InRow(s.cells[i].rows[0], which) == t
  }

  predicate NotRead(s: State, i: nat, which: Reading) {
    i < |s.cells| ==> !LaneSet(s.cells[i]) && !HoldsReading(s, i, which)
  }

  lemma LaneCarries(s: State, i: nat, which: Reading, t: int)
    requires Inv(s) && Enabled(s, Lane) && Carried(s, i, which, t)
    ensures Carried(LaneStep(s), i, which, t)
  {
    assert CellOk(s, i);
    FifoShape(s);
  }

  lemma StepCarries(s: State, e: Event, i: nat, which: Reading, t: int)
    requires Inv(s) && Enabled(s, e) && Carried(s, i, which, t)
    ensures Carried(Step(s, e), i, which, t)
  {
    if e == Lane {
      LaneCarries(s, i, which, t);
    } else {
      RowsStay(s, e, i);
    }
  }

  lemma {:induction false} RunCarries(s: State, es: seq<Event>, i: nat, which: Reading, t: int)
    requires Inv(s) && Legal(s, es) && Carried(s, i, which, t)
    ensures Carried(Run(s, es), i, which, t)
    decreases |es|
  {
    if es != [] {
      StepInv(s, es[0]);
      StepCarries(s, es[0], i, which, t);
      RunCarries(Step(s, es[0]), es[1..], i, which, t);
    }
  }

  lemma StepReads(s: State, e: Event, i: nat, which: Reading)
    requires Inv(s) && Enabled(s, e) && NotRead(s, i, which)
    ensures if e == Lane && Reads(s.pc, i, which) then Carried(Step(s, e), i, which, s.now)
            else NotRead(Step(s, e), i, which)
  {
    if i < |Step(s, e).cells| && !(e == Lane && s.pc.Fulfil?) {
      RowsStay(s, e, i);
    }
    if i < |s.cells| {
      assert CellOk(s, i);
    }
    FifoShape(s);
  }

  lemma {:induction false} FindReading(s: State, es: seq<Event>, i: nat, which: Reading) returns (k: nat)
    requires Inv(s) && Legal(s, es) && NotRead(s, i, which)
    requires i < |Run(s, es).cells| && LaneSet(Run(s, es).cells[i])
    ensures k < |es| && es[k] == Lane && Legal(s, es[..k])
    ensures Reads(Run(s, es[..k]).pc, i, which)
    ensures InRow(Run(s, es).cells[i].rows[0], which) == Run(s, es[..k]).now
    decreases |es|
  {
    StepInv(s, es[0]);
    StepReads(s, es[0], i, which);
    var s1 := Step(s, es[0]);
    if es[0] == Lane && Reads(s.pc, i, which) {
      k := 0;
      RunInv(s1, es[1..]);
      RunCarries(s1, es[1..], i, which, s.now);
      LaneSetIsOver(Run(s1, es[1..]), i, which);
    } else {
      k := FindReading(s1, es[1..], i, which);
      k := k + 1;
      assert es[..k][1..] == es[1..][..k - 1];
    }
  }

  lemma LaneSetIsOver(s: State, i: nat, which: Reading)
    requires Inv(s) && i < |s.cells| && LaneSet(s.cells[i])
    ensures !HoldsReading(s, i, which)
  {
    assert CellOk(s, i);
  }

  // start_ns and end_ns of a row the lane set are the clock readings of that request's
  // own entry into service() and of its own end, at two moments of the run.
  lemma RowHasItsReadings(now: int, es: seq<Event>, i: nat) returns (a: nat, b: nat)
    requires Legal(Init(now), es) && i < |Run(Init(now), es).cells| && LaneSet(Run(Init(now), es).cells[i])
    ensures a < |es| && es[a] == Lane && Legal(Init(now), es[..a])
    ensures b < |es| && es[b] == Lane && Legal(Init(now), es[..b])
    ensures Run(Init(now), es[..a]).pc == Start(i)
    ensures Run(Init(now), es[..b]).pc.Stamp? && Run(Init(now), es[..b]).pc.id == i
    ensures var row := Run(Init(now), es).cells[i].rows[0];
            row.startNs == Run(Init(now), es[..a]).now && row.endNs == Run(Init(now), es[..b]).now
  {
    InitInv(now);
    a := FindReading(Init(now), es, i, StartNs);
    b := FindReading(Init(now), es, i, EndNs);
  }

  // ---- run_lane: one producer, no tokens, wait for every future ----

  ghost predicate NoTokens(es: seq<Event>) {
    forall k :: 0 <= k < |es| ==> (es[k].Submit? ==> !es[k].q.cancelable) && (es[k].TrySubmit? ==> !es[k].q.cancelable)
  }

  lemma {:induction false} NoTokensMeansLaneRows(s: State, es: seq<Event>)
    requires Inv(s) && Legal(s, es) && NoTokens(es)
    requires forall i :: 0 <= i < |s.cells| ==> !s.cells[i].q.cancelable
    ensures forall i :: 0 <= i < |Run(s, es).cells| ==> !Run(s, es).cells[i].q.cancelable
    decreases |es|
  {
    if es != [] {
      StepInv(s, es[0]);
      var s1 := Step(s, es[0]);
      assert forall i :: 0 <= i < |s1.cells| ==> !s1.cells[i].q.cancelable;
      NoTokensMeansLaneRows(s1, es[1..]);
    }
  }

  function EndTimes(cells: seq<Cell>): seq<int>
    requires forall i :: 0 <= i < |cells| ==> cells[i].rows != []
  {
    seq(|cells|, i requires 0 <= i < |cells| => cells[i].rows[0].endNs)
  }

  // The executable FIFO check counts nothing on any token-less lane run.
  lemma TokenlessRunHasNoInversions(now: int, es: seq<Event>)
    requires Legal(Init(now), es) && NoTokens(es)
    requires forall i :: 0 <= i < |Run(Init(now), es).cells| ==> Run(Init(now), es).cells[i].rows != []
    ensures Inversions.InvertedPairs(EndTimes(Run(Init(now), es).cells)) == {}
  {
    var s := Run(Init(now), es);
    InitInv(now);
    NoTokensMeansLaneRows(Init(now), es);
    Reachable(now, es);
    var ends := EndTimes(s.cells);
    forall p | p in Inversions.InvertedPairs(ends)
      ensures false
    {
      assert CellOk(s, p.0) && CellOk(s, p.1);
      ServiceIsSerial(now, es, p.0, p.1);
    }
  }
}
