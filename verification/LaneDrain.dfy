// Liveness of the lane with fairness replaced by counting: no wakeup is lost, a
// state with work left always has a step that does some of it, and the number of
// such steps is bounded by what was submitted.
module LaneDrain {
  import opened Basics
  import opened TokenSpec
  import opened LaneMachine
  import opened LaneInvariant

  // The steps some thread is committed to taking: the consumer's own, and the
  // notify or set_value that a client call still owes before it returns.
  predicate Work(e: Event) {
    e.Lane? || e.NotifyOne? || e.NotifyAll? || e.CancelFulfil?
  }

  ghost predicate Stuck(s: State) {
    forall e: Event :: Work(e) ==> !Enabled(s, e)
  }

  // ---- Nobody waits for ever ----

  // A sleeping lane with a queued request, or with stop_ set, is owed a notify.
  lemma NoLostWakeup(now: int, es: seq<Event>)
    requires Legal(Init(now), es)
    ensures var s := Run(Init(now), es);
            s.pc == Asleep && (s.queue != [] || s.stop != NotStopped) ==>
              Enabled(s, NotifyOne) || Enabled(s, NotifyAll)
  {
    Reachable(now, es);
  }

  // If no committed step is left, the lane is idle on an empty queue, or gone
  // after a stop, and every admitted promise is set.
  lemma StuckMeansServed(now: int, es: seq<Event>)
    requires Legal(Init(now), es) && Stuck(Run(Init(now), es))
    ensures var s := Run(Init(now), es);
            && s.queue == [] && !s.active && s.notifies == 0
            && s.pc == (if s.stop == NotStopped then Asleep else Exited)
            && (forall i :: 0 <= i < |s.cells| ==> |s.cells[i].rows| == 1 && s.cells[i].pending == 0)
  {
    Reachable(now, es);
    StuckShape(Run(Init(now), es));
  }

  lemma StuckShape(s: State)
    requires Inv(s) && Stuck(s)
    ensures s.queue == [] && !s.active && s.notifies == 0
    ensures s.pc == (if s.stop == NotStopped then Asleep else Exited)
    ensures forall i :: 0 <= i < |s.cells| ==> |s.cells[i].rows| == 1 && s.cells[i].pending == 0
  {
    assert !Enabled(s, Lane) && !Enabled(s, NotifyOne) && !Enabled(s, NotifyAll);
    FifoShape(s);
    forall i | 0 <= i < |s.cells|
      ensures |s.cells[i].rows| == 1 && s.cells[i].pending == 0
    {
      assert CellOk(s, i);
      assert !Enabled(s, CancelFulfil(i, s.now));
    }
  }

  // The consumer thread returns only after stop_ and only on an empty queue.
  lemma ReturnsOnlyDrained(s: State, e: Event)
    requires Inv(s) && Enabled(s, e) && s.pc != Exited && Step(s, e).pc == Exited
    ensures e == Lane && s.stop != NotStopped && s.queue == []
    ensures forall i :: 0 <= i < |s.cells| ==> |s.cells[i].rows| + s.cells[i].pending == 1
  {
    FifoShape(s);
    forall i | 0 <= i < |s.cells|
      ensures |s.cells[i].rows| + s.cells[i].pending == 1
    {
      assert CellOk(s, i);
    }
  }

  // Once the lane is gone, every promise is set or owned by a cancel() that is
  // already past its phase flip.
  lemma ExitedOwesNothing(now: int, es: seq<Event>, i: nat)
    requires Legal(Init(now), es) && Run(Init(now), es).pc == Exited
    requires i < |Run(Init(now), es).cells|
    ensures var c := Run(Init(now), es).cells[i];
            |c.rows| == 1 || (c.rows == [] && c.pending == 1 && c.tok.phase == Cancelled)
  {
    var s := Run(Init(now), es);
    Reachable(now, es);
    FifoShape(s);
    assert CellOk(s, i);
  }

  // ---- How many steps are left ----

  // Lane steps from the pop of a request to its active_ flag being cleared.
  function Weight(c: Cell): nat {
    2 * Chunks(c.q) + 6
  }

  // A set_value that a cancel() owes, or may come to owe.
  function Owed(c: Cell): nat {
    c.pending + (if c.q.cancelable && c.tok.phase == Queued then 1 else 0)
  }

  function PcWeight(s: State): nat {
    if !Holds(s) then (if s.pc == Check then 1 else 0)
    else
      var n := Chunks(s.cells[s.pc.id].q);
      match s.pc
      case Popped(_) => 2 * n + 6
      case Start(_) => 2 * n + 5
      case Boundary(_, k, _) => if k < n then 2 * (n - k) + 5 else 6
      case Chunk(_, k, _) => if k < n then 2 * (n - k) + 4 else 6
      case Finish(_, _) => 5
      case Stamp(_, _, _, _) => 4
      case Fulfil(_, _) => 3
      case _ => 2
  }

  function Waiting(s: State): seq<Cell> {
    if |s.popped| <= |s.cells| then s.cells[|s.popped|..] else []
  }

  ghost function Left(s: State): nat {
    SumOf(s.cells, Owed) + SumOf(Waiting(s), Weight) + PcWeight(s)
    + 2 * s.notifies + (if s.stop == StopSet then 2 else 0)
  }

  // What an event can add: a submission its requests' steps, a spurious wakeup
  // one more look at the queue.
  ghost function Credit(e: Event): nat {
    match e
    case Submit(q) => 2 * Chunks(q) + 9
    case TrySubmit(q, _) => 2 * Chunks(q) + 9
    case SubmitBulk(qs) => SumOf(NewCells(WithoutTokens(qs)), Weight) + 2
    case SetStop => 2
    case Spurious => 1
    case _ => 0
  }

  lemma {:induction false} NoneOwed(cs: seq<Cell>)
    requires forall k :: 0 <= k < |cs| ==> Owed(cs[k]) == 0
    ensures SumOf(cs, Owed) == 0
  {
    if cs != [] {
      NoneOwed(cs[1..]);
    }
  }

  lemma PushLeft(s: State, qs: seq<Request>)
    requires Inv(s) && s.stop == NotStopped
    ensures Left(Push(s, qs)) == Left(s) + SumOf(NewCells(qs), Owed) + SumOf(NewCells(qs), Weight) + 2
  {
    FifoShape(s);
    var s' := Push(s, qs);
    SumConcat(s.cells, NewCells(qs), Owed);
    assert Waiting(s') == Waiting(s) + NewCells(qs);
    SumConcat(Waiting(s), NewCells(qs), Weight);
    assert PcWeight(s') == PcWeight(s);
  }

  lemma SingleSum(c: Cell)
    ensures SumOf([c], Owed) == Owed(c) && SumOf([c], Weight) == Weight(c)
  {
  }

  lemma SubmitLeft(s: State, q: Request)
    requires Inv(s) && s.stop == NotStopped
    ensures Left(Push(s, [q])) <= Left(s) + 2 * Chunks(q) + 9
  {
    PushLeft(s, [q]);
    assert NewCells([q]) == [NewCell(q)];
    SingleSum(NewCell(q));
  }

  // Replacing a cell by one with the same request.
  lemma CellLeft(s: State, i: nat, c: Cell)
    requires Inv(s) && i < |s.cells| && c.q == s.cells[i].q
    ensures Left(s.(cells := s.cells[i := c])) + Owed(s.cells[i]) == Left(s) + Owed(c)
  {
    var s' := s.(cells := s.cells[i := c]);
    FifoShape(s);
    SumUpdate(s.cells, i, c, Owed);
    var k := |s.popped|;
    if i < k {
      assert Waiting(s') == Waiting(s);
    } else {
      assert Waiting(s') == Waiting(s)[i - k := c];
      SumUpdate(Waiting(s), i - k, c, Weight);
    }
    assert PcWeight(s') == PcWeight(s);
  }

  lemma CheckLeft(s: State)
    requires Inv(s) && s.pc == Check
    ensures Left(CheckStep(s)) < Left(s)
  {
    FifoShape(s);
    var s' := CheckStep(s);
    if s.queue != [] {
      assert Waiting(s) == [s.cells[|s.popped|]] + Waiting(s');
      assert s.queue[0] == |s.popped|;
    }
  }

  lemma CancelLeft(s: State, i: nat)
    requires Inv(s) && Enabled(s, Cancel(i))
    ensures Left(Step(s, Cancel(i))) <= Left(s)
  {
    assert Owed(CancelCell(s.cells[i])) <= Owed(s.cells[i]);
    CellLeft(s, i, CancelCell(s.cells[i]));
  }

  lemma CancelFulfilLeft(s: State, i: nat, t: int)
    requires Inv(s) && Enabled(s, CancelFulfil(i, t))
    ensures Left(Step(s, CancelFulfil(i, t))) + 1 == Left(s)
  {
    CellLeft(s, i, FulfilCell(s.cells[i], t));
  }

  // One step of the lane on the request it holds touches that cell only, owes
  // no more, and brings the lane closer to its next look at the queue.
  lemma ServeShape(s: State)
    requires Inv(s) && Holds(s)
    ensures var i := s.pc.id; var s' := LaneStep(s);
            && i < |s'.cells| && s'.cells == s.cells[i := s'.cells[i]]
            && s'.cells[i].q == s.cells[i].q && Owed(s'.cells[i]) <= Owed(s.cells[i])
    ensures PcWeight(LaneStep(s)) < PcWeight(s)
  {
    assert CellOk(s, s.pc.id);
  }

  lemma ServeLeft(s: State)
    requires Inv(s) && Holds(s)
    ensures Left(LaneStep(s)) < Left(s)
  {
    var s' := LaneStep(s);
    ServeShape(s);
    CellLeft(s, s.pc.id, s'.cells[s.pc.id]);
    assert Waiting(s') == Waiting(s.(cells := s'.cells));
    assert PcWeight(s.(cells := s'.cells)) == PcWeight(s);
  }

  // Waking the lane pays for its next look at the queue.
  lemma WakeLeft(s: State, s': State)
    requires s' == s.(notifies := s'.notifies, stop := s'.stop, pc := s'.pc, now := s'.now)
    requires s'.pc == s.pc || (s.pc == Asleep && s'.pc == Check)
    ensures var rest := 2 * s.notifies + (if s.stop == StopSet then 2 else 0);
            var rest' := 2 * s'.notifies + (if s'.stop == StopSet then 2 else 0);
            Left(s') + rest <= Left(s) + rest' + (if s'.pc == s.pc then 0 else 1)
  {
    assert Waiting(s') == Waiting(s);
  }

  lemma StepLeft(s: State, e: Event)
    requires Inv(s) && Enabled(s, e)
    ensures Left(Step(s, e)) + (if Work(e) then 1 else 0) <= Left(s) + Credit(e)
  {
    match e
    case Submit(q) => SubmitLeft(s, q);
    case TrySubmit(q, _) => SubmitLeft(s, q);
    case SubmitBulk(qs) =>
      PushLeft(s, WithoutTokens(qs));
      NoneOwed(NewCells(WithoutTokens(qs)));
    case Cancel(i) => CancelLeft(s, i);
    case CancelFulfil(i, t) => CancelFulfilLeft(s, i, t);
    case Lane => if s.pc == Check { CheckLeft(s); } else { ServeLeft(s); }
    case _ => WakeLeft(s, Step(s, e));
  }

  ghost function WorkSteps(es: seq<Event>): nat {
    if es == [] then 0 else (if Work(es[0]) then 1 else 0) + WorkSteps(es[1..])
  }

  // Over any run the committed steps are at most what was left at the start plus
  // what the run's other events added; cancel() calls add nothing.
  lemma {:induction false} WorkIsBounded(s: State, es: seq<Event>)
    requires Inv(s) && Legal(s, es)
    ensures Left(Run(s, es)) + WorkSteps(es) <= Left(s) + SumOf(es, Credit)
    decreases |es|
  {
    if es != [] {
      StepLeft(s, es[0]);
      StepInv(s, es[0]);
      WorkIsBounded(Step(s, es[0]), es[1..]);
    }
  }

  function SpuriousWakeups(es: seq<Event>): nat {
    if es == [] then 0 else (if es[0].Spurious? then 1 else 0) + SpuriousWakeups(es[1..])
  }

  lemma {:induction false} StoppedCredit(s: State, es: seq<Event>)
    requires s.stop != NotStopped && Legal(s, es)
    ensures SumOf(es, Credit) == SpuriousWakeups(es)
    decreases |es|
  {
    if es != [] {
      StoppedCredit(Step(s, es[0]), es[1..]);
    }
  }

  // ~ServiceLane drains: from any reachable state with stop_ set, every schedule
  // takes at most Left(s) committed steps, plus one per spurious wakeup, and one
  // that cannot take another has served every request and let the thread return.
  lemma DrainTerminates(now: int, before: seq<Event>, after: seq<Event>)
    requires Legal(Init(now), before) && Run(Init(now), before).stop != NotStopped
    requires Legal(Run(Init(now), before), after)
    ensures var s := Run(Init(now), before);
            WorkSteps(after) <= Left(s) + SpuriousWakeups(after)
    ensures var s' := Run(Run(Init(now), before), after);
            Stuck(s') ==>
              && s'.pc == Exited && s'.queue == []
              && (forall i :: 0 <= i < |s'.cells| ==> |s'.cells[i].rows| == 1 && s'.cells[i].pending == 0)
  {
    var s := Run(Init(now), before);
    Reachable(now, before);
    WorkIsBounded(s, after);
    StoppedCredit(s, after);
    RunInv(s, after);
    StopStays(s, after);
    if Stuck(Run(s, after)) {
      StuckShape(Run(s, after));
    }
  }

  lemma {:induction false} StopStays(s: State, es: seq<Event>)
    requires s.stop != NotStopped && Legal(s, es)
    ensures Run(s, es).stop != NotStopped
    decreases |es|
  {
    if es != [] {
      StopStays(Step(s, es[0]), es[1..]);
    }
  }

  // Such a schedule exists from every reachable state: with no new calls, the
  // committed steps alone reach a state with nothing left to do.
  lemma {:induction false} CanFinish(s: State) returns (es: seq<Event>)
    requires Inv(s)
    ensures Legal(s, es) && Stuck(Run(s, es)) && |es| <= Left(s)
    ensures forall k :: 0 <= k < |es| ==> Work(es[k])
    decreases Left(s)
  {
    if Stuck(s) {
      es := [];
    } else {
      var e :| Work(e) && Enabled(s, e);
      StepLeft(s, e);
      StepInv(s, e);
      var rest := CanFinish(Step(s, e));
      es := [e] + rest;
      assert es[1..] == rest;
    }
  }
}
