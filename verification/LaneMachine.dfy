// The service lane as an interleaving step system. Every event is one critical
// section, one atomic access, one condition-variable operation or one promise
// operation of ServiceLane / HpxLane / CancelToken; threads may be preempted
// between any two of them. Client threads are anonymous: a thread between its
// push and its notify is one unit of `notifies`, a cancel() between its phase
// flip and its set_value is one unit of its cell's `pending`.
module LaneMachine {
  import opened Basics
  import opened TokenSpec
  import opened ChunkSchedule

  datatype Mode = Sleep | Spin | Other(name: string)

  // The fields of a request that steer the protocol, and whether its submit
  // asked for a token.
  datatype Request = Request(cancelable: bool, chunks: int, mode: Mode)

  // service() throws for any other work_mode.
  predicate SupportedMode(m: Mode) {
    !m.Other?
  }

  predicate Supported(q: Request) {
    SupportedMode(q.mode)
  }

  function Chunks(q: Request): nat {
    ChunkCount(q.chunks)
  }

  datatype Status = RowCompleted | RowCancelled | RowFailed
  datatype Setter = ByCancel | ByLane
  datatype Row = Row(status: Status, chunksCompleted: nat, startNs: int, endNs: int, setter: Setter)

  // One admitted request. `rows` records every set_value on its promise, `ran`
  // the active chunks run for it, `trues` the cancel() calls decided true.
  datatype Cell = Cell(q: Request, tok: Token, pending: nat, trues: nat, ran: nat, rows: seq<Row>)

  function NewCell(q: Request): Cell {
    Cell(q, FRESH, 0, 0, 0, [])
  }

  // Program counter of the consumer thread.
  datatype LanePc =
    | Check                                                       // about to test the wait predicate under the mutex
    | Asleep                                                      // blocked in the condition variable
    | Popped(id: nat)                                             // popped, begin_service not called yet
    | Skip(id: nat)                                               // begin_service returned false
    | Start(id: nat)                                              // entering service()
    | Boundary(id: nat, c: nat, t0: int)                          // about to call stop_at_boundary before chunk c
    | Chunk(id: nat, c: nat, t0: int)                             // about to run active chunk c
    | Finish(id: nat, t0: int)                                    // about to call mark_completed
    | Stamp(id: nat, status: Status, done: nat, t0: int)          // about to read end_ns
    | Fulfil(id: nat, row: Row)                                   // about to call set_value
    | Clear(id: nat)                                              // about to clear active_
    | Exited

  datatype Stop = NotStopped | StopSet | StopNotified

  // `popped` and `served` are histories: the order of pops, and of the lane's
  // own set_value calls.
  datatype State = State(cells: seq<Cell>, queue: seq<nat>, popped: seq<nat>, served: seq<nat>,
                         stop: Stop, active: bool, notifies: nat, pc: LanePc, now: int)

  function Init(now: int): State {
    State([], [], [], [], NotStopped, false, 0, Check, now)
  }

  datatype Event =
    | Submit(q: Request)
    | TrySubmit(q: Request, cap: int)
    | SubmitBulk(qs: seq<Request>)
    | NotifyOne
    | Cancel(id: nat)
    | CancelFulfil(id: nat, t: int)
    | SetStop
    | NotifyAll
    | Spurious
    | Tick(dt: nat)
    | Lane

  // Submissions end before destruction starts. A cancel needs a token, and may
  // come at any time, even after the lane is gone.
  predicate Enabled(s: State, e: Event) {
    match e
    case Submit(_) => s.stop == NotStopped
    case TrySubmit(_, _) => s.stop == NotStopped
    case SubmitBulk(_) => s.stop == NotStopped
    case NotifyOne => s.notifies > 0
    case Cancel(id) => id < |s.cells| && s.cells[id].q.cancelable
    case CancelFulfil(id, t) => id < |s.cells| && s.cells[id].pending > 0 && t <= s.now
    case SetStop => s.stop == NotStopped
    case NotifyAll => s.stop == StopSet
    case Spurious => s.pc == Asleep
    case Tick(_) => true
    case Lane => s.pc == Check || Holds(s)
  }

  // The lane holds a popped request.
  predicate Holds(s: State) {
    Current(s.pc).Some? && Current(s.pc).value < |s.cells|
  }

  function NewCells(qs: seq<Request>): seq<Cell> {
    seq(|qs|, k requires 0 <= k < |qs| => NewCell(qs[k]))
  }

  // The push of a whole group under one lock; one notify is then owed.
  function Push(s: State, qs: seq<Request>): State {
    s.(cells := s.cells + NewCells(qs),
       queue := s.queue + Range(|s.cells|, |s.cells| + |qs|),
       notifies := s.notifies + 1)
  }

  function WithoutTokens(qs: seq<Request>): seq<Request> {
    seq(|qs|, k requires 0 <= k < |qs| => qs[k].(cancelable := false))
  }

  function WakeUp(pc: LanePc): LanePc {
    if pc == Asleep then Check else pc
  }

  function CancelCell(c: Cell): Cell {
    match Decide(c.tok)
    case FulfilNow => c.(tok := AfterCancel(c.tok), pending := c.pending + 1, trues := c.trues + 1)
    case LaneWillStop => c.(tok := AfterCancel(c.tok), trues := c.trues + 1)
    case TooLate => c
  }

  function CancelRow(t: int): Row {
    Row(RowCancelled, 0, t, t, ByCancel)
  }

  function FulfilCell(c: Cell, t: int): Cell
    requires c.pending > 0
  {
    c.(pending := c.pending - 1, rows := c.rows + [CancelRow(t)])
  }

  function Step(s: State, e: Event): State
    requires Enabled(s, e)
  {
    match e
    case Submit(q) => Push(s, [q])
    case TrySubmit(q, cap) => if |s.queue| >= cap then s else Push(s, [q])
    case SubmitBulk(qs) => Push(s, WithoutTokens(qs))
    case NotifyOne => s.(notifies := s.notifies - 1, pc := WakeUp(s.pc))
    case Cancel(id) => s.(cells := s.cells[id := CancelCell(s.cells[id])])
    case CancelFulfil(id, t) => s.(cells := s.cells[id := FulfilCell(s.cells[id], t)])
    case SetStop => s.(stop := StopSet)
    case NotifyAll => s.(stop := StopNotified, pc := WakeUp(s.pc))
    case Spurious => s.(pc := Check)
    case Tick(dt) => s.(now := s.now + dt)
    case Lane => LaneStep(s)
  }

  // After the chunk before c (or at entry, c == 0) the loop continues at chunk c.
  function AtChunk(q: Request, id: nat, c: nat, t0: int): LanePc {
    if c >= Chunks(q) then Finish(id, t0)
    else if c > 0 && q.cancelable then Boundary(id, c, t0)
    else Chunk(id, c, t0)
  }

  function Current(pc: LanePc): Option<nat> {
    match pc
    case Check => None
    case Asleep => None
    case Exited => None
    case _ => Some(pc.id)
  }

  function LaneStep(s: State): State
    requires s.pc == Check || Holds(s)
  {
    if s.pc == Check then CheckStep(s) else ServeStep(s, s.pc.id, s.cells[s.pc.id])
  }

  // cv_.wait's predicate test, and the pop under the same lock.
  function CheckStep(s: State): State {
    if s.queue == [] then
      s.(pc := if s.stop == NotStopped then Asleep else Exited)
    else
      s.(queue := s.queue[1..], popped := s.popped + [s.queue[0]], active := true, pc := Popped(s.queue[0]))
  }

  function ServeStep(s: State, i: nat, c: Cell): State
    requires i < |s.cells| && Current(s.pc) == Some(i)
  {
    match s.pc
    case Popped(_) =>
      if !c.q.cancelable then s.(pc := Start(i))
      else s.(cells := s.cells[i := c.(tok := AfterBegin(c.tok, c.q.chunks))],
              pc := if Begins(c.tok) then Start(i) else Skip(i))
    case Skip(_) => s.(active := false, pc := Check)
    case Start(_) =>
      s.(pc := if Supported(c.q) then AtChunk(c.q, i, 0, s.now) else Stamp(i, RowFailed, 0, s.now))
    case Boundary(_, k, t0) =>
      s.(cells := s.cells[i := c.(tok := AfterBoundary(c.tok, k == Chunks(c.q) - 1))],
         pc := if StopsHere(c.tok) then Stamp(i, RowCancelled, k, t0) else Chunk(i, k, t0))
    case Chunk(_, k, t0) =>
      s.(cells := s.cells[i := c.(ran := c.ran + 1)], pc := AtChunk(c.q, i, k + 1, t0))
    case Finish(_, t0) =>
      s.(cells := s.cells[i := if c.q.cancelable then c.(tok := AfterComplete(c.tok)) else c],
         pc := Stamp(i, RowCompleted, Chunks(c.q), t0))
    case Stamp(_, status, k, t0) => s.(pc := Fulfil(i, Row(status, k, t0, s.now, ByLane)))
    case Fulfil(_, row) =>
      s.(cells := s.cells[i := c.(rows := c.rows + [row])], served := s.served + [i], pc := Clear(i))
    case Clear(_) => s.(active := false, pc := Check)
  }

  // ---- Runs ----

  ghost predicate Legal(s: State, es: seq<Event>)
    decreases |es|
  {
    es == [] || (Enabled(s, es[0]) && Legal(Step(s, es[0]), es[1..]))
  }

  ghost function Run(s: State, es: seq<Event>): State
    requires Legal(s, es)
    decreases |es|
  {
    if es == [] then s else Run(Step(s, es[0]), es[1..])
  }
}
