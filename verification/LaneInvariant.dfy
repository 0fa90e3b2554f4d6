// The inductive invariant of the lane machine: every event keeps it, so it
// holds in every state that any interleaving can reach.
module LaneInvariant {
  import opened Basics
  import opened TokenSpec
  import opened LaneMachine

  // Nothing has happened to the request yet.
  predicate Untouched(c: Cell) {
    c == NewCell(c.q)
  }

  // A cancel() won while the request was queued: it alone owns the promise.
  predicate QueuedCancel(c: Cell) {
    && c.q.cancelable
    && c.tok == Token(Cancelled, false)
    && c.trues == 1
    && c.ran == 0
    && (|| (c.pending == 1 && c.rows == [])
        || (c.pending == 0 && |c.rows| == 1 && c.rows[0] == CancelRow(c.rows[0].startNs)))
  }

  // The lane serves the request and owns the promise. The token accepts a
  // running stop exactly while a boundary call is still ahead.
  predicate InService(c: Cell, boundaryAhead: bool, ran: nat) {
    && c.pending == 0
    && c.rows == []
    && c.ran == ran
    && if !c.q.cancelable then c.tok == FRESH && c.trues == 0
       else if boundaryAhead then
         (c.tok == Token(Running, true) && c.trues == 0) || (c.tok == Token(StopRequested, true) && c.trues == 1)
       else c.tok == Token(Running, false) && c.trues == 0
  }

  // An unsupported mode throws after begin_service, so the token stays armed.
  predicate FailedToken(c: Cell) {
    if !c.q.cancelable then c.tok == FRESH && c.trues == 0
    else
      || (c.tok == Token(Running, c.q.chunks > 1) && c.trues == 0)
      || (c.q.chunks > 1 && c.tok == Token(StopRequested, true) && c.trues == 1)
  }

  // The outcome the lane reached agrees with what cancel() calls were told.
  predicate Outcome(c: Cell, status: Status, done: nat) {
    && c.pending == 0
    && c.ran == done
    && match status
       case RowCompleted =>
         && Supported(c.q) && done == Chunks(c.q) && c.trues == 0
         && c.tok == (if c.q.cancelable then Token(Completed, false) else FRESH)
       case RowCancelled =>
         && c.q.cancelable && Supported(c.q) && 1 <= done < Chunks(c.q) && c.trues == 1
         && c.tok == Token(Cancelled, true)
       case RowFailed =>
         && !Supported(c.q) && done == 0
         && FailedToken(c)
  }

  predicate LaneRow(c: Cell, row: Row) {
    Outcome(c, row.status, row.chunksCompleted) && row.setter == ByLane
  }

  predicate Past(c: Cell) {
    QueuedCancel(c) || (|c.rows| == 1 && LaneRow(c, c.rows[0]))
  }

  // What the lane's position says about the request it holds.
  predicate Held(c: Cell, pc: LanePc)
    requires Current(pc).Some?
  {
    match pc
    case Popped(_) => Untouched(c) || QueuedCancel(c)
    case Skip(_) => QueuedCancel(c)
    case Start(_) => InService(c, c.q.chunks > 1, 0)
    case Boundary(_, k, _) => c.q.cancelable && Supported(c.q) && 1 <= k < Chunks(c.q) && InService(c, true, k)
    case Chunk(_, k, _) => Supported(c.q) && k < Chunks(c.q) && InService(c, k < Chunks(c.q) - 1, k)
    case Finish(_, _) => Supported(c.q) && InService(c, false, Chunks(c.q))
    case Stamp(_, status, k, _) => c.rows == [] && Outcome(c, status, k)
    case Fulfil(_, row) => c.rows == [] && LaneRow(c, row)
    case Clear(_) => |c.rows| == 1 && LaneRow(c, c.rows[0])
  }

  predicate CellOk(s: State, i: nat)
    requires i < |s.cells|
  {
    var c := s.cells[i];
    if Current(s.pc) == Some(i) then Held(c, s.pc)
    else if i < |s.popped| then Past(c)
    else Untouched(c) || QueuedCancel(c)
  }

  // FIFO: what was popped, followed by what is queued, is what was pushed.
  predicate Fifo(s: State) {
    s.popped + s.queue == Range(0, |s.cells|)
  }

  // No lost wakeup: a lane asleep with something to do is about to be notified.
  predicate WakeupOwed(s: State) {
    s.pc == Asleep && (s.queue != [] || s.stop != NotStopped) ==> s.notifies > 0 || s.stop == StopSet
  }

  predicate LaneOk(s: State) {
    && (Current(s.pc).Some? ==> |s.popped| > 0 && Current(s.pc).value == |s.popped| - 1)
    && s.active == Current(s.pc).Some?
    && (s.pc == Exited ==> s.stop != NotStopped && s.queue == [])
  }

  ghost predicate Inv(s: State) {
    && Fifo(s)
    && LaneOk(s)
    && WakeupOwed(s)
    && forall i :: 0 <= i < |s.cells| ==> CellOk(s, i)
  }

  lemma InitInv(now: int)
    ensures Inv(Init(now))
  {
  }

  lemma FifoShape(s: State)
    requires Fifo(s)
    ensures |s.popped| + |s.queue| == |s.cells|
    ensures s.popped == Range(0, |s.popped|) && s.queue == Range(|s.popped|, |s.cells|)
  {
    var all := s.popped + s.queue;
    assert s.popped == all[..|s.popped|];
    assert s.queue == all[|s.popped|..];
  }

  lemma PushKeeps(s: State, qs: seq<Request>)
    requires Inv(s) && s.stop == NotStopped
    ensures Inv(Push(s, qs))
  {
    var s' := Push(s, qs);
    RangeSplits(0, |s.cells|, |s'.cells|);
    assert s'.popped + s'.queue == (s.popped + s.queue) + Range(|s.cells|, |s'.cells|);
    FifoShape(s);
    forall i | 0 <= i < |s'.cells|
      ensures CellOk(s', i)
    {
      if i < |s.cells| {
        assert CellOk(s, i);
      } else {
        assert s'.cells[i] == NewCell(qs[i - |s.cells|]);
      }
    }
  }

  // Replacing one cell, in place, by one that fits its position.
  lemma CellKeeps(s: State, i: nat, c: Cell)
    requires Inv(s) && i < |s.cells|
    requires CellOk(s.(cells := s.cells[i := c]), i)
    ensures Inv(s.(cells := s.cells[i := c]))
  {
    var s' := s.(cells := s.cells[i := c]);
    forall j | 0 <= j < |s'.cells| && j != i
      ensures CellOk(s', j)
    {
      assert CellOk(s, j);
    }
  }

  // A cancel() leaves a held request fitting the lane's position.
  lemma CancelHeld(c: Cell, pc: LanePc)
    requires Current(pc).Some? && c.q.cancelable && Held(c, pc)
    ensures Held(CancelCell(c), pc)
  {
  }

  lemma CancelUnheld(c: Cell)
    requires c.q.cancelable
    ensures Untouched(c) || QueuedCancel(c) ==> QueuedCancel(CancelCell(c))
    ensures Past(c) ==> Past(CancelCell(c))
  {
  }

  lemma CancelKeeps(s: State, i: nat)
    requires Inv(s) && Enabled(s, Cancel(i))
    ensures Inv(Step(s, Cancel(i)))
  {
    var c := s.cells[i];
    assert CellOk(s, i);
    if Current(s.pc) == Some(i) {
      CancelHeld(c, s.pc);
    } else {
      CancelUnheld(c);
    }
    CellKeeps(s, i, CancelCell(c));
  }

  // Only a queued cancel owes a set_value.
  lemma PendingIsQueuedCancel(s: State, i: nat)
    requires i < |s.cells| && CellOk(s, i) && s.cells[i].pending > 0
    ensures QueuedCancel(s.cells[i])
    ensures Current(s.pc) == Some(i) ==> s.pc.Popped? || s.pc.Skip?
  {
  }

  lemma CancelFulfilKeeps(s: State, i: nat, t: int)
    requires Inv(s) && Enabled(s, CancelFulfil(i, t))
    ensures Inv(Step(s, CancelFulfil(i, t)))
  {
    assert CellOk(s, i);
    PendingIsQueuedCancel(s, i);
    assert QueuedCancel(FulfilCell(s.cells[i], t));
    CellKeeps(s, i, FulfilCell(s.cells[i], t));
  }

  lemma CheckKeeps(s: State)
    requires Inv(s) && s.pc == Check
    ensures Inv(CheckStep(s))
  {
    var s' := CheckStep(s);
    FifoShape(s);
    assert s'.popped + s'.queue == s.popped + s.queue;
    forall i | 0 <= i < |s'.cells|
      ensures CellOk(s', i)
    {
      assert CellOk(s, i);
    }
  }

  lemma ServeKeeps(s: State)
    requires Inv(s) && Holds(s)
    ensures Inv(LaneStep(s))
  {
    var s' := LaneStep(s);
    var i := s.pc.id;
    assert CellOk(s, i);
    assert s'.popped + s'.queue == s.popped + s.queue;
    forall j | 0 <= j < |s'.cells|
      ensures CellOk(s', j)
    {
      assert CellOk(s, j);
    }
  }

  lemma StepInv(s: State, e: Event)
    requires Inv(s) && Enabled(s, e)
    ensures Inv(Step(s, e))
  {
    match e
    case Submit(q) => PushKeeps(s, [q]);
    case TrySubmit(q, _) => PushKeeps(s, [q]);
    case SubmitBulk(qs) => PushKeeps(s, WithoutTokens(qs));
    case Cancel(i) => CancelKeeps(s, i);
    case CancelFulfil(i, t) => CancelFulfilKeeps(s, i, t);
    case Lane => if s.pc == Check { CheckKeeps(s); } else { ServeKeeps(s); }
    case _ =>
      forall i | 0 <= i < |s.cells|
        ensures CellOk(Step(s, e), i)
      {
        assert CellOk(s, i);
      }
  }

  lemma {:induction false} RunInv(s: State, es: seq<Event>)
    requires Inv(s) && Legal(s, es)
    ensures Inv(Run(s, es))
    decreases |es|
  {
    if es != [] {
      StepInv(s, es[0]);
      RunInv(Step(s, es[0]), es[1..]);
    }
  }

  // The invariant of every reachable state.
  lemma Reachable(now: int, es: seq<Event>)
    requires Legal(Init(now), es)
    ensures Inv(Run(Init(now), es))
  {
    InitInv(now);
    RunInv(Init(now), es);
  }
}
