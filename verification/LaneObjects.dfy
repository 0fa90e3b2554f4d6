// CancelToken and the lane as objects, in the imperative form of
// service_lane.hpp. HpxLane is the same class with another actor id prefix and
// cooperative sleeps. Each method is one client call or one consumer iteration;
// `cancels[c]` says that some client calls cancel() while chunk c is running.
module LaneObjects {
  import opened Basics
  import opened TokenSpec
  import opened ChunkSchedule
  import LM = LaneMachine

  datatype Job = Job(requestId: string, serviceMs: real, chunks: int, chunkDelayMs: real, mode: LM.Mode, submitNs: int)

  datatype Result = Result(requestId: string, actorId: string, submitNs: int, startNs: int, endNs: int,
                           enqueueNs: int, queueDepth: nat, status: LM.Status, chunksCompleted: nat)

  // The steady clock: every reading is at least the one before it.
  class Clock {
    var last: int

    constructor (start: int)
      ensures last == start
    {
      last := start;
    }

    method Now() returns (t: int)
      modifies this
      ensures t == last >= old(last)
    {
      t :| t >= last;
      last := t;
    }
  }

  // A promise accepts one set_value.
  class Promise {
    var value: Option<Result>

    constructor ()
      ensures value == None
    {
      value := None;
    }

    method SetValue(r: Result)
      requires value == None
      modifies this
      ensures value == Some(r)
    {
      value := Some(r);
    }
  }

  class CancelToken {
    var phase: Phase
    var cancellable: bool
    const prom: Promise
    const clock: Clock
    const actorId: string
    const submitNs: int
    ghost var won: nat  // the cancel() calls that returned true

    // While the request is queued, nobody has set its promise. At most one cancel()
    // won, and the phase still tells whether one did.
    ghost predicate Valid()
      reads this, prom
    {
      && (phase == Queued ==> prom.value == None)
      && won <= 1
      && (won == 1 <==> phase == Cancelled || phase == StopRequested)
    }

    ghost function Tok(): Token
      reads this
    {
      Token(phase, cancellable)
    }

    constructor (prom: Promise, clock: Clock, actorId: string, submitNs: int)
      requires prom.value == None
      ensures Valid() && Tok() == FRESH && won == 0 && this.prom == prom && this.clock == clock
      ensures this.actorId == actorId && this.submitNs == submitNs
    {
      phase, cancellable, won := Queued, false, 0;
      this.prom, this.clock, this.actorId, this.submitNs := prom, clock, actorId, submitNs;
    }

    method Cancel() returns (settled: bool)
      requires Valid()
      modifies this, prom, clock
      ensures Valid() && clock.last >= old(clock.last)
      ensures Tok() == AfterCancel(old(Tok()))
      ensures settled == (Decide(old(Tok())) != TooLate) && won == old(won) + (if settled then 1 else 0)
      ensures Decide(old(Tok())) == FulfilNow ==>
                prom.value == Some(Result("", actorId, submitNs, clock.last, clock.last, 0, 0, LM.RowCancelled, 0))
      ensures Decide(old(Tok())) != FulfilNow ==> prom.value == old(prom.value)
    {
      if phase == Queued {
        phase, won := Cancelled, won + 1;
      } else if phase == Running && cancellable {
        phase, won := StopRequested, won + 1;
        return true;
      } else {
        return false;
      }
      var t := clock.Now();
      prom.SetValue(Result("", actorId, submitNs, t, t, 0, 0, LM.RowCancelled, 0));
      return true;
    }

    // The lane calls it once, on the request it has just popped, so no running stop
    // can have been requested.
    method BeginService(chunks: int) returns (go: bool)
      requires Valid() && phase != StopRequested
      modifies this
      ensures Valid() && Tok() == AfterBegin(old(Tok()), chunks) && go == Begins(old(Tok()))
      ensures won == old(won) && (go <==> won == 0)
    {
      if phase == Cancelled {
        return false;
      }
      phase := Running;
      cancellable := chunks > 1;
      return true;
    }

    method StopAtBoundary(nextIsFinal: bool) returns (stop: bool)
      requires Valid()
      modifies this
      ensures Valid() && Tok() == AfterBoundary(old(Tok()), nextIsFinal) && stop == StopsHere(old(Tok()))
      ensures won == old(won)
    {
      if phase == StopRequested {
        phase := Cancelled;
        return true;
      }
      if nextIsFinal {
        cancellable := false;
      }
      return false;
    }

    method MarkCompleted()
      requires Valid()
      modifies this
      ensures Valid() && Tok() == AfterComplete(old(Tok())) && won == old(won)
    {
      if phase == Running {
        phase := Completed;
      }
    }

    method IsCancelled() returns (b: bool)
      requires Valid()
      ensures b <==> won == 1
      ensures b == Settled(Tok())
    {
      b := phase == Cancelled || phase == StopRequested;
    }
  }

  datatype Item = Item(job: Job, prom: Promise, tok: CancelToken?, enqueueNs: int, depth: nat)

  // How many chunks run when cancel() comes during the chunks marked in `cancels`:
  // the first mark before the final chunk stops the request at the next boundary.
  function ChunksRun(cancels: seq<bool>, c: nat, n: nat): (k: nat)
    requires c < n
    ensures c < k <= n
    ensures k < n ==> k - 1 < |cancels| && cancels[k - 1]
    ensures forall j :: c <= j < k - 1 && j < |cancels| ==> !cancels[j]
    decreases n - c
  {
    if c + 1 >= n then n
    else if c < |cancels| && cancels[c] then c + 1
    else ChunksRun(cancels, c + 1, n)
  }

  class ServiceLane {
    const actorId: string
    const diag: bool
    const clock: Clock
    var queue: seq<Item>
    var stop: bool
    var active: bool
    ghost var pushed: seq<Item>
    ghost var popped: seq<Item>

    // A queued request is untouched, or a queued cancel has set its promise.
    ghost predicate ItemOk(it: Item)
      reads it.prom, it.tok
    {
      if it.tok == null then it.prom.value == None
      else
        && it.tok.prom == it.prom && it.tok.clock == clock && it.tok.Valid()
        && if it.prom.value == None then it.tok.Tok() == FRESH else it.tok.Tok() == Token(Cancelled, false)
    }

    ghost function Parts(items: seq<Item>): set<object> {
      (set k | 0 <= k < |items| :: items[k].prom) + (set k | 0 <= k < |items| && items[k].tok != null :: items[k].tok)
    }

    ghost predicate ItemsOk(items: seq<Item>)
      reads Parts(items)
    {
      forall k :: 0 <= k < |items| ==>
        && items[k].prom in Parts(items) && (items[k].tok != null ==> items[k].tok in Parts(items))
        && ItemOk(items[k])
    }

    ghost predicate Apart(items: seq<Item>) {
      forall j, k :: 0 <= j < k < |items| ==> items[j].prom != items[k].prom
    }

    ghost predicate Valid()
      reads this, Parts(queue)
    {
      pushed == popped + queue && ItemsOk(queue) && Apart(queue)
    }

    // The parts of the first item belong to no other.
    lemma HeadApart(items: seq<Item>)
      requires items != [] && ItemsOk(items) && Apart(items)
      ensures ItemOk(items[0]) && ItemsOk(items[1..]) && Apart(items[1..])
      ensures this !in Parts(items[1..]) && clock !in Parts(items[1..]) && items[0].prom !in Parts(items[1..])
      ensures items[0].tok != null ==> items[0].tok !in Parts(items[1..])
    {
      var rest := items[1..];
      forall k | 0 <= k < |rest|
        ensures rest[k].prom != items[0].prom && (rest[k].tok != null ==> rest[k].tok != items[0].tok)
        ensures ItemOk(rest[k])
      {
        assert rest[k] == items[k + 1];
        assert ItemOk(items[k + 1]) && ItemOk(items[0]);
      }
    }

    constructor (actorId: string, diag: bool, clock: Clock)
      ensures Valid() && queue == [] && pushed == [] && !stop && !active
      ensures this.actorId == actorId && this.diag == diag && this.clock == clock
    {
      this.actorId, this.diag, this.clock := actorId, diag, clock;
      queue, stop, active := [], false, false;
      pushed, popped := [], [];
    }

    method Stats() returns (depth: nat, isActive: bool)
      requires Valid()
      ensures depth == |pushed| - |popped| && isActive == active
    {
      depth, isActive := |queue|, active;
    }

    // The queued item of a submission that found `ahead` requests in the queue.
    predicate Pushed(it: Item, job: Job, prom: Promise, tok: CancelToken?, ahead: nat) {
      && it.job == job && it.prom == prom && it.tok == tok
      && it.depth == (if diag then ahead + 1 else 0)
      && (tok != null ==> tok.prom == prom && tok.actorId == actorId && tok.submitNs == job.submitNs)
    }

    // queue_.push_back under the lane mutex, with the diag capture.
    method Enqueue(job: Job, prom: Promise, tok: CancelToken?) returns (it: Item)
      requires Valid()
      requires prom.value == None && prom !in Parts(queue)
      requires tok != null ==> tok.prom == prom && tok.clock == clock && tok.Valid() && tok !in Parts(queue)
      requires tok != null ==> tok.Tok() == FRESH
      requires tok != null ==> tok.actorId == actorId && tok.submitNs == job.submitNs
      modifies this`queue, this`pushed, clock
      ensures Valid() && clock.last >= old(clock.last)
      ensures queue == old(queue) + [it] && pushed == old(pushed) + [it]
      ensures Pushed(it, job, prom, tok, |old(queue)|)
      ensures it.enqueueNs == (if diag then clock.last else 0)
    {
      var at, depth := 0, 0;
      if diag {
        at := clock.Now();
        depth := |queue| + 1;
      }
      it := Item(job, prom, tok, at, depth);
      queue := queue + [it];
      pushed := pushed + [it];
      forall k | 0 <= k < |queue|
        ensures ItemOk(queue[k])
      {
        assert k < |old(queue)| ==> queue[k] == old(queue)[k];
      }
    }

    method Submit(job: Job, wantToken: bool) returns (prom: Promise, tok: CancelToken?)
      requires Valid()
      modifies this`queue, this`pushed, clock
      ensures Valid() && fresh(prom) && prom.value == None
      ensures wantToken <==> tok != null
      ensures tok != null ==> fresh(tok) && tok.Tok() == FRESH && tok.won == 0
      ensures clock.last >= old(clock.last)
      ensures |queue| == |old(queue)| + 1 && queue[..|old(queue)|] == old(queue)
      ensures Pushed(queue[|old(queue)|], job, prom, tok, |old(queue)|)
      ensures queue[|old(queue)|].enqueueNs == (if diag then clock.last else 0)
      ensures pushed == old(pushed) + [queue[|old(queue)|]]
    {
      prom := new Promise();
      tok := null;
      if wantToken {
        tok := new CancelToken(prom, clock, actorId, job.submitNs);
      }
      var _ := Enqueue(job, prom, tok);
    }

    // Admit only below the cap; a reject creates and changes nothing.
    method TrySubmit(job: Job, maxQueueDepth: int, wantToken: bool) returns (prom: Promise?, tok: CancelToken?)
      requires Valid()
      modifies this`queue, this`pushed, clock
      ensures Valid() && clock.last >= old(clock.last)
      ensures prom == null <==> |old(queue)| >= maxQueueDepth
      ensures prom == null ==> tok == null && unchanged(this) && unchanged(clock)
      ensures prom != null ==>
                && fresh(prom) && prom.value == None && (wantToken <==> tok != null)
                && (tok != null ==> fresh(tok) && tok.Tok() == FRESH && tok.won == 0)
                && |queue| == |old(queue)| + 1 <= maxQueueDepth && queue[..|old(queue)|] == old(queue)
                && Pushed(queue[|old(queue)|], job, prom, tok, |old(queue)|)
                && queue[|old(queue)|].enqueueNs == (if diag then clock.last else 0)
                && pushed == old(pushed) + [queue[|old(queue)|]]
    {
      if |queue| >= maxQueueDepth {
        return null, null;
      }
      var p, t := Submit(job, wantToken);
      return p, t;
    }

    // Enqueue times within [from, to], never falling; all 0 without diag.
    ghost predicate TimesRise(items: seq<Item>, from: int, to: int) {
      if diag then
        && (forall k :: 0 <= k < |items| ==> from <= items[k].enqueueNs <= to)
        && (forall j, k :: 0 <= j < k < |items| ==> items[j].enqueueNs <= items[k].enqueueNs)
      else
        forall k :: 0 <= k < |items| ==> items[k].enqueueNs == 0
    }

    // One lock for the whole group; no tokens; promises in input order.
    method SubmitBulk(jobs: seq<Job>) returns (proms: seq<Promise>)
      requires Valid()
      modifies this`queue, this`pushed, clock
      ensures Valid() && clock.last >= old(clock.last)
      ensures |proms| == |jobs| && |queue| == |old(queue)| + |jobs| && queue[..|old(queue)|] == old(queue)
      ensures forall k :: 0 <= k < |jobs| ==>
                && Pushed(queue[|old(queue)| + k], jobs[k], proms[k], null, |old(queue)| + k)
                && fresh(proms[k]) && proms[k].value == None
      ensures TimesRise(queue[|old(queue)|..], old(clock.last), clock.last)
      ensures pushed == old(pushed) + queue[|old(queue)|..]
    {
      proms := [];
      ghost var added: seq<Item> := [];
      for i := 0 to |jobs|
        invariant Valid() && |proms| == |added| == i
        invariant queue == old(queue) + added && pushed == old(pushed) + added
        invariant forall k :: 0 <= k < i ==> Pushed(added[k], jobs[k], proms[k], null, |old(queue)| + k)
        invariant forall k :: 0 <= k < i ==> fresh(proms[k]) && proms[k].value == None
        invariant clock.last >= old(clock.last) && TimesRise(added, old(clock.last), clock.last)
      {
        var prom := new Promise();
        var it := Enqueue(jobs[i], prom, null);
        proms := proms + [prom];
        added := added + [it];
      }
    }

    // The row and the emitted slices of a serviced request.
    predicate RowFits(job: Job, hasToken: bool, cancels: seq<bool>, r: Result) {
      && r.requestId == job.requestId && r.actorId == actorId && r.submitNs == job.submitNs
      && if job.mode != LM.Sleep && job.mode != LM.Spin then
           r.status == LM.RowFailed && r.chunksCompleted == 0
         else
           var n: nat := Max(1, job.chunks);
           && r.chunksCompleted == (if hasToken then ChunksRun(cancels, 0, n) else n)
           && r.status == (if r.chunksCompleted < n then LM.RowCancelled else LM.RowCompleted)
    }

    predicate TraceFits(job: Job, r: Result, trace: seq<Slice>) {
      if job.mode != LM.Sleep && job.mode != LM.Spin then trace == []
      else
        var n: nat, k := Max(1, job.chunks), r.chunksCompleted;
        k <= n && trace == Emitted(k, n, PerChunk(job.serviceMs, job.chunks), job.chunkDelayMs)
    }

    // The chunk loop of service(): k chunks ran. The token, if any, has just begun.
    method RunChunks(n: nat, perChunk: real, delay: real, tok: CancelToken?, cancels: seq<bool>)
        returns (k: nat, trace: seq<Slice>)
      requires n >= 1
      requires tok != null ==> tok.Valid() && tok.Tok() == Token(Running, n > 1) && tok.clock == clock
      modifies clock, if tok == null then {} else {tok, tok.prom}
      ensures clock.last >= old(clock.last)
      ensures tok != null ==> tok.Valid() && tok.prom.value == old(tok.prom.value)
      ensures k == (if tok != null then ChunksRun(cancels, 0, n) else n) && trace == Emitted(k, n, perChunk, delay)
      ensures tok != null ==> tok.phase == if k < n then Cancelled else Running
    {
      trace := [];
      var c := 0;
      while c < n
        invariant 0 <= c <= n && clock.last >= old(clock.last)
        invariant trace == Emitted(c, n, perChunk, delay)
        invariant tok != null ==> tok.Valid() && tok.prom.value == old(tok.prom.value)
        invariant tok != null ==>
          if c == n then ChunksRun(cancels, 0, n) == n && tok.Tok() == Token(Running, false)
          else if tok.phase == StopRequested then
            c >= 1 && ChunksRun(cancels, 0, n) == c && tok.Tok() == Token(StopRequested, true)
          else
            ChunksRun(cancels, 0, n) == ChunksRun(cancels, c, n) && tok.Tok() == Token(Running, n > 1)
      {
        if c > 0 && tok != null {
          var halt := tok.StopAtBoundary(c == n - 1);
          if halt {
            return c, trace;
          }
        }
        if perChunk > 0.0 {
          trace := trace + [Active(perChunk)];
        }
        if tok != null && c < |cancels| && cancels[c] {
          var _ := tok.Cancel();
        }
        if c + 1 < n && delay > 0.0 {
          trace := trace + [Gap(delay)];
        }
        c := c + 1;
      }
      k := n;
    }

    // service(), on a token that has just begun.
    method Service(job: Job, tok: CancelToken?, cancels: seq<bool>) returns (r: Result, trace: seq<Slice>)
      requires tok != null ==> tok.Valid() && tok.Tok() == Token(Running, job.chunks > 1) && tok.clock == clock
      modifies clock, if tok == null then {} else {tok, tok.prom}
      ensures old(clock.last) <= r.startNs <= r.endNs <= clock.last
      ensures tok != null ==> tok.Valid() && tok.prom.value == old(tok.prom.value)
      ensures RowFits(job, tok != null, cancels, r) && TraceFits(job, r, trace)
      ensures r.enqueueNs == 0 && r.queueDepth == 0
      ensures job.mode == LM.Sleep || job.mode == LM.Spin ==> r.status != LM.RowFailed && r.chunksCompleted >= 1
      ensures tok != null && (job.mode == LM.Sleep || job.mode == LM.Spin) ==>
                && tok.phase == (if r.status == LM.RowCancelled then Cancelled else Completed)
                && (r.status == LM.RowCancelled <==> tok.won == 1)
    {
      var t0 := clock.Now();
      if job.mode != LM.Sleep && job.mode != LM.Spin {
        var t1 := clock.Now();
        return Result(job.requestId, actorId, job.submitNs, t0, t1, 0, 0, LM.RowFailed, 0), [];
      }
      var n := if job.chunks < 1 then 1 else job.chunks;
      var k;
      k, trace := RunChunks(n, job.serviceMs / n as real, job.chunkDelayMs, tok, cancels);
      if k == n && tok != null {
        tok.MarkCompleted();
      }
      var t1 := clock.Now();
      var status := if k < n then LM.RowCancelled else LM.RowCompleted;
      r := Result(job.requestId, actorId, job.submitNs, t0, t1, 0, 0, status, k);
    }

    // The row the lane set, of a service within [from, to].
    ghost predicate RowSet(it: Item, cancels: seq<bool>, from: int, to: int)
      reads it.prom
    {
      && it.prom.value.Some?
      && var r := it.prom.value.value;
         && RowFits(it.job, it.tok != null, cancels, r)
         && r.enqueueNs == it.enqueueNs && r.queueDepth == it.depth
         && from <= r.startNs <= r.endNs <= to
    }

    // The lane's work on a popped item: begin, service, set_value. `served` is
    // false when a queued cancel had already set the promise.
    method ServeItem(it: Item, cancels: seq<bool>) returns (served: bool, trace: seq<Slice>)
      requires ItemOk(it)
      modifies clock, it.prom, it.tok
      ensures clock.last >= old(clock.last)
      ensures served == old(it.prom.value == None) && it.prom.value.Some?
      ensures !served ==> it.prom.value == old(it.prom.value) && trace == []
      ensures served ==>
                RowSet(it, cancels, old(clock.last), clock.last) && TraceFits(it.job, it.prom.value.value, trace)
    {
      trace := [];
      if it.tok != null {
        var go := it.tok.BeginService(it.job.chunks);
        if !go {
          return false, [];
        }
      }
      var r;
      r, trace := Service(it.job, it.tok, cancels);
      it.prom.SetValue(r.(enqueueNs := it.enqueueNs, queueDepth := it.depth));
      served := true;
    }

    // One iteration of run() on a non-empty queue.
    method ServeNext(cancels: seq<bool>) returns (it: Item, served: bool, trace: seq<Slice>)
      requires Valid() && queue != []
      modifies this`queue, this`popped, this`active, clock, queue[0].prom, queue[0].tok
      ensures Valid() && !active && clock.last >= old(clock.last)
      ensures it == old(queue[0]) && queue == old(queue)[1..] && popped == old(popped) + [it]
      ensures served == old(queue[0].prom.value == None) && it.prom.value.Some?
      ensures !served ==> it.prom.value == old(queue[0].prom.value) && trace == []
      ensures served ==>
                RowSet(it, cancels, old(clock.last), clock.last) && TraceFits(it.job, it.prom.value.value, trace)
    {
      it := queue[0];
      HeadApart(queue);
      queue := queue[1..];
      popped := popped + [it];
      active := true;
      served, trace := ServeItem(it, cancels);
      active := false;
    }

    ghost function StartOf(it: Item): int
      reads it.prom
    {
      if it.prom.value.Some? then it.prom.value.value.startNs else 0
    }

    ghost function EndOf(it: Item): int
      reads it.prom
    {
      if it.prom.value.Some? then it.prom.value.value.endNs else 0
    }

    ghost function PromisesOf(items: seq<Item>): (vs: seq<Option<Result>>)
      reads set j | 0 <= j < |items| :: items[j].prom
      ensures |vs| == |items|
    {
      if items == [] then [] else [items[0].prom.value] + PromisesOf(items[1..])
    }

    // The chunks of item k during which clients cancel.
    static function MarksOf(marks: seq<seq<bool>>, k: nat): seq<bool> {
      if k < |marks| then marks[k] else []
    }

    // A drained item: a queued cancel's row is kept, any other item was served with
    // the cancels that came while its chunks ran.
    ghost predicate Drained(it: Item, was: Option<Result>, cancels: seq<bool>, now: int)
      reads it.prom
    {
      if was.Some? then it.prom.value == was else RowSet(it, cancels, StartOf(it), now)
    }

    // Items whose promises held `was` are drained in disjoint intervals, in order.
    ghost predicate AllDrained(done: seq<Item>, was: seq<Option<Result>>, marks: seq<seq<bool>>, now: int)
      requires |done| == |was|
      reads set j | 0 <= j < |done| :: done[j].prom
    {
      && (forall j :: 0 <= j < |done| ==> Drained(done[j], was[j], MarksOf(marks, j), now))
      && (forall i, j :: 0 <= i < j < |done| && was[i] == None && was[j] == None ==> EndOf(done[i]) <= StartOf(done[j]))
    }

    lemma OneMoreDrained(done: seq<Item>, was: seq<Option<Result>>, marks: seq<seq<bool>>, before: int,
                         it: Item, itWas: Option<Result>, now: int)
      requires |done| == |was| && AllDrained(done, was, marks, before) && before <= now
      requires Drained(it, itWas, MarksOf(marks, |done|), now) && (itWas == None ==> before <= StartOf(it))
      ensures AllDrained(done + [it], was + [itWas], marks, now)
    {
    }

    // The lane has drained the first k of `all`; the others wait as they were.
    ghost predicate Draining(all: seq<Item>, was: seq<Option<Result>>, marks: seq<seq<bool>>, k: nat)
      reads this, clock, Parts(queue), set j | 0 <= j < |all| :: all[j].prom
    {
      && k <= |all| == |was| && Valid()
      && queue == all[k..] && PromisesOf(queue) == was[k..]
      && AllDrained(all[..k], was[..k], marks, clock.last)
    }

    lemma DrainStarts(marks: seq<seq<bool>>)
      requires Valid()
      ensures Draining(queue, PromisesOf(queue), marks, 0)
    {
      assert queue[0..] == queue && PromisesOf(queue)[0..] == PromisesOf(queue);
    }

    lemma DrainEnds(all: seq<Item>, was: seq<Option<Result>>, marks: seq<seq<bool>>, k: nat)
      requires Draining(all, was, marks, k) && queue == []
      ensures Valid() && popped == pushed && AllDrained(all, was, marks, clock.last)
    {
      assert all[..k] == all && was[..k] == was;
    }

    // run() once stop_ is set and no client submits any more; clients may still cancel
    // the request in service. It returns on an empty queue, having served the queue
    // in order and set every promise.
    method Run(marks: seq<seq<bool>>)
      requires Valid() && stop
      modifies this`queue, this`popped, this`active, clock, Parts(queue)
      ensures Valid() && stop && queue == [] && popped == pushed == old(pushed)
      ensures AllDrained(old(queue), old(PromisesOf(queue)), marks, clock.last)
    {
      ghost var all, was := queue, PromisesOf(queue);
      var k := 0;
      DrainStarts(marks);
      while queue != []
        invariant Apart(all) && Draining(all, was, marks, k)
        decreases |queue|
      {
        ServeAmong(all, was, marks, k);
        k := k + 1;
      }
      DrainEnds(all, was, marks, k);
    }

    // One turn of that loop, seen within the whole list being drained.
    method ServeAmong(ghost all: seq<Item>, ghost was: seq<Option<Result>>, marks: seq<seq<bool>>, k: nat)
      requires k < |all| && Apart(all) && Draining(all, was, marks, k)
      modifies this`queue, this`popped, this`active, clock, all[k].prom, all[k].tok
      ensures Draining(all, was, marks, k + 1)
    {
      assert queue[0] == all[k];
      assert PromisesOf(queue)[0] == was[k];
      var _, _, _ := ServeNext(MarksOf(marks, k));
      OneMoreDrained(all[..k], was[..k], marks, old(clock.last), all[k], was[k], clock.last);
      assert all[k..][1..] == all[k + 1..] && was[k..][1..] == was[k + 1..];
      assert all[..k + 1] == all[..k] + [all[k]] && was[..k + 1] == was[..k] + [was[k]];
    }
  }
}
