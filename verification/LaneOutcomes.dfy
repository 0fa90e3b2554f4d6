// What clients may rely on, over every interleaving: each promise is set exactly
// once, and cancel() tells the truth about the row.
module LaneOutcomes {
  import opened Basics
  import opened TokenSpec
  import opened LaneMachine
  import opened LaneInvariant

  // The lane thread has returned and no cancel() is between its flip and its set_value.
  ghost predicate Quiescent(s: State) {
    s.pc == Exited && forall i :: 0 <= i < |s.cells| ==> s.cells[i].pending == 0
  }

  // How many cancel() calls on request i were decided as d during a run.
  ghost function Decided(s: State, es: seq<Event>, i: nat, d: Decision): nat
    requires Legal(s, es)
    decreases |es|
  {
    if es == [] then 0
    else (if es[0] == Cancel(i) && Decide(s.cells[i].tok) == d then 1 else 0)
         + Decided(Step(s, es[0]), es[1..], i, d)
  }

  // cancel() calls on request i that returned true.
  ghost function TrueCancels(s: State, es: seq<Event>, i: nat): nat
    requires Legal(s, es)
  {
    Decided(s, es, i, FulfilNow) + Decided(s, es, i, LaneWillStop)
  }

  function SetByCancel(c: Cell): nat {
    if |c.rows| == 1 && c.rows[0].setter == ByCancel then 1 else 0
  }

  // ---- What a run can only add to ----

  predicate Grows(c: Cell, c': Cell) {
    && c'.q == c.q
    && c.rows <= c'.rows
    && c.trues <= c'.trues
    && c.ran <= c'.ran
    && (Settled(c.tok) ==> Settled(c'.tok))
  }

  lemma LaneGrows(s: State, i: nat)
    requires Inv(s) && Enabled(s, Lane) && i < |s.cells|
    ensures i < |LaneStep(s).cells| && Grows(s.cells[i], LaneStep(s).cells[i])
  {
    assert CellOk(s, i);
  }

  lemma StepGrows(s: State, e: Event, i: nat)
    requires Inv(s) && Enabled(s, e) && i < |s.cells|
    ensures i < |Step(s, e).cells| && Grows(s.cells[i], Step(s, e).cells[i])
  {
    if e == Lane {
      LaneGrows(s, i);
    }
  }

  lemma {:induction false} RunGrows(s: State, es: seq<Event>, i: nat)
    requires Inv(s) && Legal(s, es) && i < |s.cells|
    ensures i < |Run(s, es).cells| && Grows(s.cells[i], Run(s, es).cells[i])
    decreases |es|
  {
    if es != [] {
      StepGrows(s, es[0], i);
      StepInv(s, es[0]);
      RunGrows(Step(s, es[0]), es[1..], i);
    }
  }

  // is_cancelled() never reverts to false, and a row once set stays as it is.
  lemma SettledForever(now: int, before: seq<Event>, after: seq<Event>, i: nat)
    requires Legal(Init(now), before) && Legal(Run(Init(now), before), after)
    requires i < |Run(Init(now), before).cells|
    ensures var s := Run(Init(now), before);
            var s' := Run(s, after);
            && i < |s'.cells|
            && (Settled(s.cells[i].tok) ==> Settled(s'.cells[i].tok))
            && (s.cells[i].rows != [] ==> s'.cells[i].rows == s.cells[i].rows)
  {
    Reachable(now, before);
    var s := Run(Init(now), before);
    RunGrows(s, after, i);
    RunInv(s, after);
    assert CellOk(Run(s, after), i);
    assert CellOk(s, i);
  }

  // ---- Exactly-once fulfilment ----

  // In every reachable state a promise was set at most once, and a cancel() that
  // still has to set it is the only party that ever will.
  lemma AtMostOnce(now: int, es: seq<Event>, i: nat)
    requires Legal(Init(now), es) && i < |Run(Init(now), es).cells|
    ensures var c := Run(Init(now), es).cells[i];
            && |c.rows| + c.pending <= 1
            && (c.pending == 1 ==> c.ran == 0 && c.tok.phase == Cancelled)
  {
    Reachable(now, es);
    assert CellOk(Run(Init(now), es), i);
  }

  lemma StepCounts(s: State, e: Event, i: nat)
    requires Inv(s) && Enabled(s, e) && i < |s.cells|
    ensures i < |Step(s, e).cells|
    ensures var c := s.cells[i]; var c' := Step(s, e).cells[i];
            && c'.trues == c.trues + (if e == Cancel(i) && Decide(c.tok) != TooLate then 1 else 0)
            && c'.pending + SetByCancel(c')
               == c.pending + SetByCancel(c) + (if e == Cancel(i) && Decide(c.tok) == FulfilNow then 1 else 0)
  {
    assert CellOk(s, i);
  }

  lemma {:induction false} DecidedCounts(s: State, es: seq<Event>, i: nat)
    requires Inv(s) && Legal(s, es) && i < |s.cells|
    ensures i < |Run(s, es).cells|
    ensures var c := s.cells[i]; var c' := Run(s, es).cells[i];
            && c'.trues == c.trues + TrueCancels(s, es, i)
            && c'.pending + SetByCancel(c') == c.pending + SetByCancel(c) + Decided(s, es, i, FulfilNow)
    decreases |es|
  {
    if es != [] {
      StepInv(s, es[0]);
      StepCounts(s, es[0], i);
      DecidedCounts(Step(s, es[0]), es[1..], i);
    }
  }

  lemma {:induction false} DecidedFromStart(s: State, es: seq<Event>, i: nat)
    requires Inv(s) && Legal(s, es) && |s.cells| <= i < |Run(s, es).cells|
    ensures var c' := Run(s, es).cells[i];
            && c'.trues == TrueCancels(s, es, i)
            && c'.pending + SetByCancel(c') == Decided(s, es, i, FulfilNow)
    decreases |es|
  {
    if es != [] {
      var s1 := Step(s, es[0]);
      StepInv(s, es[0]);
      assert es[0] != Cancel(i);
      if i < |s1.cells| {
        assert Untouched(s1.cells[i]);
        DecidedCounts(s1, es[1..], i);
      } else {
        DecidedFromStart(s1, es[1..], i);
      }
    }
  }

  // At quiescence every admitted promise was set exactly once: by the cancel()
  // call that won while the request was queued, if there was one, else by the lane.
  lemma ExactlyOnce(now: int, es: seq<Event>, i: nat)
    requires Legal(Init(now), es) && Quiescent(Run(Init(now), es)) && i < |Run(Init(now), es).cells|
    ensures var c := Run(Init(now), es).cells[i];
            && |c.rows| == 1
            && Decided(Init(now), es, i, FulfilNow) <= 1
            && (c.rows[0].setter == ByCancel <==> Decided(Init(now), es, i, FulfilNow) == 1)
  {
    var s := Run(Init(now), es);
    Reachable(now, es);
    FifoShape(s);
    assert CellOk(s, i);
    InitInv(now);
    DecidedFromStart(Init(now), es, i);
  }

  // ---- cancel() and the row ----

  // At most one cancel() per token ever returns true, whatever the request, and
  // is_cancelled() says whether one did.
  lemma OneTrueCancel(now: int, es: seq<Event>, i: nat)
    requires Legal(Init(now), es) && i < |Run(Init(now), es).cells|
    ensures TrueCancels(Init(now), es, i) <= 1
    ensures Settled(Run(Init(now), es).cells[i].tok) <==> TrueCancels(Init(now), es, i) == 1
  {
    Reachable(now, es);
    assert CellOk(Run(Init(now), es), i);
    InitInv(now);
    DecidedFromStart(Init(now), es, i);
  }

  // For a supported mode the row of a fulfilled promise says what cancel() said,
  // and chunks_completed tells how far the request got.
  lemma CancelTellsTheRow(now: int, es: seq<Event>, i: nat)
    requires Legal(Init(now), es) && i < |Run(Init(now), es).cells|
    requires Run(Init(now), es).cells[i].q.mode == Sleep || Run(Init(now), es).cells[i].q.mode == Spin
    requires Run(Init(now), es).cells[i].rows != []
    ensures var c := Run(Init(now), es).cells[i];
            var row := c.rows[0];
            && (TrueCancels(Init(now), es, i) == 1 <==> row.status == RowCancelled)
            && row.status != RowFailed
            && row.chunksCompleted == c.ran
            && (row.status == RowCompleted ==> row.setter == ByLane && c.ran == Max(1, c.q.chunks))
            && (row.status == RowCancelled && row.setter == ByCancel ==> c.ran == 0 && row.startNs == row.endNs)
            && (row.status == RowCancelled && row.setter == ByLane ==> 1 <= c.ran <= c.q.chunks - 1)
  {
    Reachable(now, es);
    assert CellOk(Run(Init(now), es), i);
    InitInv(now);
    DecidedFromStart(Init(now), es, i);
  }

  // A row says "failed" exactly if the lane set it and the mode is neither sleep nor
  // spin; then nothing was run.
  lemma OnlyUnknownModesFail(now: int, es: seq<Event>, i: nat)
    requires Legal(Init(now), es) && i < |Run(Init(now), es).cells|
    requires Run(Init(now), es).cells[i].rows != []
    ensures var c := Run(Init(now), es).cells[i];
            && (c.rows[0].status == RowFailed <==> c.rows[0].setter == ByLane && c.q.mode != Sleep && c.q.mode != Spin)
            && (c.rows[0].status == RowFailed ==> c.ran == 0 && c.rows[0].chunksCompleted == 0)
  {
    Reachable(now, es);
    assert CellOk(Run(Init(now), es), i);
  }

  // Every run that reaches quiescence tells the truth about requests like q.
  ghost predicate HonestFor(q: Request) {
    forall now: int, es: seq<Event>, i: nat ::
      Legal(Init(now), es) && i < |Run(Init(now), es).cells| ==>
        HonestAt(now, es, i, q)
  }

  ghost predicate HonestAt(now: int, es: seq<Event>, i: nat, q: Request)
    requires Legal(Init(now), es) && i < |Run(Init(now), es).cells|
  {
    var s := Run(Init(now), es);
    Quiescent(s) && s.cells[i].q == q && s.cells[i].rows != [] ==>
      (TrueCancels(Init(now), es, i) >= 1 <==> s.cells[i].rows[0].status == RowCancelled)
  }

  lemma {:induction false} Append(s: State, es: seq<Event>, e: Event)
    requires Legal(s, es) && Enabled(Run(s, es), e)
    ensures Legal(s, es + [e]) && Run(s, es + [e]) == Step(Run(s, es), e)
    decreases |es|
  {
    if es == [] {
      assert Run(Step(s, e), []) == Step(s, e);
      assert (es + [e])[1..] == [];
    } else {
      assert (es + [e])[1..] == es[1..] + [e];
      Append(Step(s, es[0]), es[1..], e);
    }
  }

  lemma Extend(es: seq<Event>, e: Event) returns (es': seq<Event>)
    requires Legal(Init(0), es) && Enabled(Run(Init(0), es), e)
    ensures Legal(Init(0), es') && Run(Init(0), es') == Step(Run(Init(0), es), e)
  {
    Append(Init(0), es, e);
    es' := es + [e];
  }

  // One submission, its notify done, the lane about to look.
  lemma OneQueued(q: Request) returns (es: seq<Event>)
    ensures Legal(Init(0), es)
    ensures Run(Init(0), es) == State([NewCell(q)], [0], [], [], NotStopped, false, 0, Check, 0)
  {
    es := Extend([], Submit(q));
    assert Run(Init(0), es) == State([NewCell(q)], [0], [], [], NotStopped, false, 1, Check, 0) by {
      assert NewCells([q]) == [NewCell(q)];
      assert Range(0, 1) == [0];
    }
    es := Extend(es, NotifyOne);
  }

  // service() throws for an unsupported work_mode after begin_service armed the
  // token: the request is in service with a live token and its row says "failed".
  lemma UnknownModeArms(q: Request) returns (es: seq<Event>)
    requires q.cancelable && q.mode != Sleep && q.mode != Spin && q.chunks > 1
    ensures Legal(Init(0), es)
    ensures var armed := NewCell(q).(tok := Token(Running, true));
            Run(Init(0), es) == State([armed], [], [0], [], NotStopped, true, 0, Stamp(0, RowFailed, 0, 0), 0)
  {
    es := OneQueued(q);
    es := Extend(es, Lane);
    es := Extend(es, Lane);
    es := Extend(es, Lane);
  }

  // cancel() now returns true, and the lane stamps the failed row.
  lemma UnknownModeStamped(q: Request) returns (es: seq<Event>)
    requires q.cancelable && q.mode != Sleep && q.mode != Spin && q.chunks > 1
    ensures Legal(Init(0), es)
    ensures var c := LateCell(q);
            Run(Init(0), es) == State([c.(rows := [])], [], [0], [], NotStopped, true, 0, Fulfil(0, c.rows[0]), 0)
  {
    es := UnknownModeArms(q);
    es := Extend(es, Cancel(0));
    es := Extend(es, Lane);
  }

  // It goes on to set that row.
  lemma UnknownModeCancelled(q: Request) returns (es: seq<Event>)
    requires q.cancelable && q.mode != Sleep && q.mode != Spin && q.chunks > 1
    ensures Legal(Init(0), es)
    ensures Run(Init(0), es)
         == State([LateCell(q)], [], [0], [0], NotStopped, false, 0, Check, 0)
  {
    var c := LateCell(q).(rows := []);
    es := UnknownModeStamped(q);
    es := Extend(es, Lane);
    assert c.rows + LateCell(q).rows == LateCell(q).rows;
    assert Run(Init(0), es) == State([LateCell(q)], [], [0], [0], NotStopped, true, 0, Clear(0), 0);
    es := Extend(es, Lane);
  }

  ghost function LateCell(q: Request): Cell {
    Cell(q, Token(StopRequested, true), 0, 1, 0, [Row(RowFailed, 0, 0, 0, ByLane)])
  }

  // A concrete run that breaks the promise: cancel() then returns true, and
  // is_cancelled() stays true, for a row that is "failed".
  lemma UnknownModeBreaksCancel(q: Request) returns (es: seq<Event>)
    requires q.cancelable && q.mode != Sleep && q.mode != Spin && q.chunks > 1
    ensures Legal(Init(0), es)
    ensures var s := Run(Init(0), es);
            && Quiescent(s) && |s.cells| == 1 && s.cells[0].q == q
            && TrueCancels(Init(0), es, 0) == 1
            && |s.cells[0].rows| == 1 && s.cells[0].rows[0].status == RowFailed
            && Settled(s.cells[0].tok)
  {
    es := UnknownModeCancelled(q);
    es := Extend(es, SetStop);
    es := Extend(es, NotifyAll);
    es := Extend(es, Lane);
    InitInv(0);
    DecidedFromStart(Init(0), es, 0);
  }

  // cancel() is honest about a cancelable request in every run if and only if the
  // lane supports its work_mode or the request has no chunk boundary.
  lemma CancelHonestIff(q: Request)
    requires q.cancelable
    ensures HonestFor(q) <==> q.mode == Sleep || q.mode == Spin || q.chunks <= 1
  {
    if q.mode == Sleep || q.mode == Spin || q.chunks <= 1 {
      forall now: int, es: seq<Event>, i: nat |
        Legal(Init(now), es) && i < |Run(Init(now), es).cells|
        ensures HonestAt(now, es, i, q)
      {
        Reachable(now, es);
        assert CellOk(Run(Init(now), es), i);
        InitInv(now);
        DecidedFromStart(Init(now), es, i);
        FifoShape(Run(Init(now), es));
      }
    } else {
      var es := UnknownModeBreaksCancel(q);
      assert !HonestAt(0, es, 0, q);
    }
  }

  // ---- A running stop request is honoured ----

  // The lane's loop still has a boundary call ahead of it for request i.
  predicate BoundaryAhead(s: State, i: nat)
    requires i < |s.cells|
  {
    && Current(s.pc) == Some(i)
    && match s.pc
       case Start(_) => s.cells[i].q.chunks > 1
       case Boundary(_, _, _) => true
       case Chunk(_, k, _) => k < Chunks(s.cells[i].q) - 1
       case _ => false
  }

  // Whenever a stop is requested, or could still be, a boundary call is ahead.
  lemma StopHasABoundary(now: int, es: seq<Event>, i: nat)
    requires Legal(Init(now), es) && i < |Run(Init(now), es).cells|
    requires Run(Init(now), es).cells[i].q.mode == Sleep || Run(Init(now), es).cells[i].q.mode == Spin
    ensures var s := Run(Init(now), es);
            var t := s.cells[i].tok;
            t.phase == StopRequested || (t.phase == Running && t.cancellable) ==> BoundaryAhead(s, i)
  {
    Reachable(now, es);
    assert CellOk(Run(Init(now), es), i);
  }

  // The lane's next boundary call is the one that stops the request.
  lemma NextBoundaryStops(now: int, es: seq<Event>, i: nat)
    requires Legal(Init(now), es) && i < |Run(Init(now), es).cells|
    requires Run(Init(now), es).cells[i].q.mode == Sleep || Run(Init(now), es).cells[i].q.mode == Spin
    requires Run(Init(now), es).cells[i].tok.phase == StopRequested
    requires Run(Init(now), es).pc.Boundary?
    ensures var s := Run(Init(now), es);
            Enabled(s, Lane) && Step(s, Lane).pc == Stamp(i, RowCancelled, s.pc.c, s.pc.t0)
  {
    Reachable(now, es);
    assert CellOk(Run(Init(now), es), i);
    FifoShape(Run(Init(now), es));
  }

  // From StopRequested no continuation ends in a completed row.
  lemma StopIsHonoured(now: int, before: seq<Event>, after: seq<Event>, i: nat)
    requires Legal(Init(now), before) && Legal(Run(Init(now), before), after)
    requires i < |Run(Init(now), before).cells|
    requires Run(Init(now), before).cells[i].q.mode == Sleep || Run(Init(now), before).cells[i].q.mode == Spin
    requires Run(Init(now), before).cells[i].tok.phase == StopRequested
    ensures var s' := Run(Run(Init(now), before), after);
            && i < |s'.cells|
            && (s'.cells[i].rows != [] ==>
                  && s'.cells[i].rows[0].status == RowCancelled
                  && s'.cells[i].rows[0].setter == ByLane)
  {
    var s := Run(Init(now), before);
    Reachable(now, before);
    assert CellOk(s, i);
    RunInv(s, after);
    StopPersists(s, after, i);
    assert CellOk(Run(s, after), i);
  }

  predicate RunningCancel(t: Token) {
    t == Token(StopRequested, true) || t == Token(Cancelled, true)
  }

  lemma StopKept(s: State, e: Event, i: nat)
    requires Inv(s) && Enabled(s, e) && i < |s.cells| && RunningCancel(s.cells[i].tok)
    ensures i < |Step(s, e).cells| && RunningCancel(Step(s, e).cells[i].tok)
    ensures Step(s, e).cells[i].q == s.cells[i].q && Step(s, e).cells[i].trues == s.cells[i].trues
  {
    assert CellOk(s, i);
  }

  // A running cancel stays a running cancel.
  lemma {:induction false} StopPersists(s: State, es: seq<Event>, i: nat)
    requires Inv(s) && Legal(s, es) && i < |s.cells| && RunningCancel(s.cells[i].tok)
    ensures i < |Run(s, es).cells| && RunningCancel(Run(s, es).cells[i].tok)
    ensures Run(s, es).cells[i].q == s.cells[i].q && Run(s, es).cells[i].trues == s.cells[i].trues
    decreases |es|
  {
    if es != [] {
      StopKept(s, es[0], i);
      StepInv(s, es[0]);
      StopPersists(Step(s, es[0]), es[1..], i);
    }
  }
}
