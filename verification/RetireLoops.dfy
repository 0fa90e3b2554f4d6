// The client-side dispatch loops: a fixed window of requests in flight over
// round-robin lanes. A future is represented by the index of its request.
module RetireLoops {
  import opened Basics
  import RoundRobin

  // ---- one_by_one: retire the oldest, submit one ----

  datatype Op = Submitted(idx: nat, lane: nat) | Retired(idx: nat)

  function Submits(log: seq<Op>): nat {
    if log == [] then 0 else Submits(log[..|log| - 1]) + (if log[|log| - 1].Submitted? then 1 else 0)
  }

  function Retires(log: seq<Op>): nat {
    if log == [] then 0 else Retires(log[..|log| - 1]) + (if log[|log| - 1].Retired? then 1 else 0)
  }

  // What the next operation may be: the requests of [begin, end) go out and come back
  // in index order; they never exceed the window, and one is retired only while the
  // window is full or all that is left is in flight.
  predicate OpOk(before: seq<Op>, op: Op, begin: nat, end: nat, window: int) {
    match op
    case Submitted(i, _) => i == begin + Submits(before) < end && Submits(before) - Retires(before) < window
    case Retired(i) =>
      && i == begin + Retires(before) && Retires(before) < Submits(before)
      && Submits(before) - Retires(before) == Min(window, end - begin - Retires(before))
  }

  // Submissions take the lanes in turn.
  predicate RouteOk(before: seq<Op>, op: Op, lanes: nat, rr: nat)
    requires lanes > 0
  {
    op.Submitted? ==> op.lane == (rr + Submits(before)) % lanes
  }

  ghost predicate OrderLog(log: seq<Op>, begin: nat, end: nat, window: int) {
    log == [] ||
    (var before := log[..|log| - 1];
     OrderLog(before, begin, end, window) && OpOk(before, log[|log| - 1], begin, end, window))
  }

  ghost predicate RouteLog(log: seq<Op>, lanes: nat, rr: nat)
    requires lanes > 0
  {
    log == [] || (RouteLog(log[..|log| - 1], lanes, rr) && RouteOk(log[..|log| - 1], log[|log| - 1], lanes, rr))
  }

  ghost predicate WindowLog(log: seq<Op>, begin: nat, end: nat, window: int, lanes: nat, rr: nat)
    requires lanes > 0
  {
    OrderLog(log, begin, end, window) && RouteLog(log, lanes, rr)
  }

  // Every moment of a run is a prefix of its log.
  lemma {:induction false} LogPrefix(log: seq<Op>, k: nat, begin: nat, end: nat, window: int, lanes: nat, rr: nat)
    requires k <= |log| && lanes > 0
    ensures OrderLog(log, begin, end, window) ==> OrderLog(log[..k], begin, end, window)
    ensures RouteLog(log, lanes, rr) ==> RouteLog(log[..k], lanes, rr)
  {
    if k == |log| {
      assert log[..k] == log;
    } else {
      LogPrefix(log[..|log| - 1], k, begin, end, window, lanes, rr);
      assert log[..|log| - 1][..k] == log[..k];
    }
  }

  // Appending an allowed operation to the log.
  function Logged(log: seq<Op>, op: Op, begin: nat, end: nat, window: int, lanes: nat, ghost rr: nat): (log': seq<Op>)
    requires lanes > 0 && WindowLog(log, begin, end, window, lanes, rr)
    requires OpOk(log, op, begin, end, window) && RouteOk(log, op, lanes, rr)
    ensures WindowLog(log', begin, end, window, lanes, rr)
    ensures Submits(log') == Submits(log) + (if op.Submitted? then 1 else 0)
    ensures Retires(log') == Retires(log) + (if op.Retired? then 1 else 0)
  {
    assert (log + [op])[..|log|] == log;
    log + [op]
  }

  // Between two turns: results and in-flight requests are the two halves of what was
  // submitted, and the log tells how they came about.
  ghost predicate Dispatched(results: seq<nat>, inflight: seq<nat>, log: seq<Op>, begin: nat, end: nat, window: int,
                             lanes: nat, rr0: nat, next: nat, rr: nat)
    requires lanes > 0
  {
    && begin + |results| <= next && rr == rr0 + (next - begin)
    && results == Range(begin, begin + |results|) && inflight == Range(begin + |results|, next)
    && WindowLog(log, begin, end, window, lanes, rr0)
    && Submits(log) == next - begin && Retires(log) == |results|
  }

  // How far the submissions are: the window is full until they run out.
  predicate Windowed(inflight: seq<nat>, begin: nat, end: nat, window: int, next: nat) {
    && begin <= next && (if begin <= end then next <= end else next == begin)
    && (if window <= 0 then next == begin else |inflight| <= window && (next < end ==> |inflight| == window))
  }

  lemma RetireTurn(results: seq<nat>, inflight: seq<nat>, log: seq<Op>, begin: nat, end: nat, window: int,
                   lanes: nat, rr0: nat, next: nat, rr: nat)
    requires lanes > 0 && inflight != [] && Windowed(inflight, begin, end, window, next)
    requires Dispatched(results, inflight, log, begin, end, window, lanes, rr0, next, rr)
    ensures var op := Retired(inflight[0]);
            && OpOk(log, op, begin, end, window) && RouteOk(log, op, lanes, rr0)
            && Dispatched(results + [inflight[0]], inflight[1..], Logged(log, op, begin, end, window, lanes, rr0),
                          begin, end, window, lanes, rr0, next, rr)
  {
  }

  lemma SubmitTurn(results: seq<nat>, inflight: seq<nat>, log: seq<Op>, begin: nat, end: nat, window: int,
                   lanes: nat, rr0: nat, next: nat, rr: nat)
    requires lanes > 0 && |inflight| < window && next < end
    requires Dispatched(results, inflight, log, begin, end, window, lanes, rr0, next, rr)
    ensures var op := Submitted(next, rr % lanes);
            && OpOk(log, op, begin, end, window) && RouteOk(log, op, lanes, rr0)
            && Dispatched(results, inflight + [next], Logged(log, op, begin, end, window, lanes, rr0),
                          begin, end, window, lanes, rr0, next + 1, rr + 1)
  {
  }

  // dispatch_one_by_one is begin == 0, window == concurrency, rr == 0; one client
  // thread's client_loop_one_by_one works on its block [begin, end).
  method OneByOne(begin: nat, end: nat, window: int, lanes: nat, rr0: nat)
      returns (results: seq<nat>, log: seq<Op>)
    requires lanes > 0
    ensures results == if window >= 1 then Range(begin, end) else []
    ensures WindowLog(log, begin, end, window, lanes, rr0)
    ensures window >= 1 && begin <= end ==> Submits(log) == Retires(log) == end - begin
  {
    results := [];
    var inflight: seq<nat>, next: nat, rr: nat;
    inflight, log, next, rr := FillWindow(begin, end, window, lanes, rr0);
    while inflight != []
      invariant Dispatched(results, inflight, log, begin, end, window, lanes, rr0, next, rr)
      invariant Windowed(inflight, begin, end, window, next)
      decreases end - begin - |results|
    {
      RetireTurn(results, inflight, log, begin, end, window, lanes, rr0, next, rr);
      log := Logged(log, Retired(inflight[0]), begin, end, window, lanes, rr0);
      results, inflight := results + [inflight[0]], inflight[1..];
      if next < end {
        SubmitTurn(results, inflight, log, begin, end, window, lanes, rr0, next, rr);
        inflight := inflight + [next];
        log := Logged(log, Submitted(next, rr % lanes), begin, end, window, lanes, rr0);
        next, rr := next + 1, rr + 1;
      }
    }
  }

  // The initial submissions.
  method FillWindow(begin: nat, end: nat, window: int, lanes: nat, rr0: nat)
      returns (inflight: seq<nat>, log: seq<Op>, next: nat, rr: nat)
    requires lanes > 0
    ensures Dispatched([], inflight, log, begin, end, window, lanes, rr0, next, rr)
    ensures Windowed(inflight, begin, end, window, next)
  {
    inflight, log, next, rr := [], [], begin, rr0;
    while next < end && |inflight| < window
      invariant Dispatched([], inflight, log, begin, end, window, lanes, rr0, next, rr)
      invariant begin <= next && (if begin <= end then next <= end else next == begin)
      invariant if window <= 0 then next == begin else |inflight| <= window
    {
      SubmitTurn([], inflight, log, begin, end, window, lanes, rr0, next, rr);
      inflight := inflight + [next];
      log := Logged(log, Submitted(next, rr % lanes), begin, end, window, lanes, rr0);
      next, rr := next + 1, rr + 1;
    }
  }

  // The in-flight deque after a log of operations.
  function InFlight(log: seq<Op>): seq<nat> {
    if log == [] then []
    else
      var deque := InFlight(log[..|log| - 1]);
      match log[|log| - 1]
      case Submitted(i, _) => deque + [i]
      case Retired(_) => if deque == [] then [] else deque[1..]
  }

  lemma InFlightAfter(before: seq<Op>, op: Op, begin: nat, end: nat, window: int)
    requires OpOk(before, op, begin, end, window) && Retires(before) <= Submits(before)
    requires InFlight(before) == Range(begin + Retires(before), begin + Submits(before))
    ensures var deque := InFlight(before);
            match op
            case Submitted(i, _) => deque + [i] == Range(begin + Retires(before), begin + Submits(before) + 1)
            case Retired(i) =>
              deque != [] && deque[0] == i && deque[1..] == Range(begin + Retires(before) + 1, begin + Submits(before))
  {
  }

  lemma {:induction false} InFlightRange(log: seq<Op>, begin: nat, end: nat, window: int)
    requires OrderLog(log, begin, end, window)
    ensures Retires(log) <= Submits(log)
    ensures InFlight(log) == Range(begin + Retires(log), begin + Submits(log))
  {
    if log != [] {
      InFlightRange(log[..|log| - 1], begin, end, window);
      InFlightAfter(log[..|log| - 1], log[|log| - 1], begin, end, window);
    }
  }

  lemma {:induction false} WindowHolds(log: seq<Op>, begin: nat, end: nat, window: int)
    requires OrderLog(log, begin, end, window)
    ensures Retires(log) <= Submits(log) && (log != [] ==> Submits(log) - Retires(log) <= window)
  {
    if log != [] {
      WindowHolds(log[..|log| - 1], begin, end, window);
    }
  }

  // After any k operations of the loop the in-flight deque is one contiguous range of
  // indices, no longer than the window, and what is retired is its oldest entry.
  lemma InFlightIsContiguous(log: seq<Op>, k: nat, begin: nat, end: nat, window: int)
    requires 0 < k <= |log| && OrderLog(log, begin, end, window)
    ensures InFlight(log[..k]) == Range(begin + Retires(log[..k]), begin + Submits(log[..k]))
    ensures |InFlight(log[..k])| <= window
    ensures log[k - 1].Retired? ==> InFlight(log[..k - 1]) != [] && log[k - 1].idx == InFlight(log[..k - 1])[0]
  {
    LogPrefix(log, k, begin, end, window, 1, 0);
    assert log[..k][..k - 1] == log[..k - 1];
    ContiguousNow(log[..k], begin, end, window);
  }

  // "Hold --concurrency in flight": whenever the loop retires a request, the window is
  // full, or everything not yet retired is in flight.
  lemma WindowIsHeld(log: seq<Op>, p: nat, begin: nat, end: nat, window: int)
    requires p < |log| && OrderLog(log, begin, end, window) && log[p].Retired?
    ensures InFlight(log[..p]) != []
    ensures |InFlight(log[..p])| == Min(window, end - begin - Retires(log[..p]))
  {
    LogPrefix(log, p + 1, begin, end, window, 1, 0);
    var now := log[..p + 1];
    assert now[..p] == log[..p] && OpOk(now[..p], now[p], begin, end, window);
    InFlightRange(log[..p], begin, end, window);
  }

  lemma ContiguousNow(log: seq<Op>, begin: nat, end: nat, window: int)
    requires log != [] && OrderLog(log, begin, end, window)
    ensures InFlight(log) == Range(begin + Retires(log), begin + Submits(log)) && |InFlight(log)| <= window
    ensures log[|log| - 1].Retired? ==>
              InFlight(log[..|log| - 1]) != [] && log[|log| - 1].idx == InFlight(log[..|log| - 1])[0]
  {
    InFlightRange(log, begin, end, window);
    WindowHolds(log, begin, end, window);
    InFlightRange(log[..|log| - 1], begin, end, window);
    InFlightAfter(log[..|log| - 1], log[|log| - 1], begin, end, window);
  }

  // Requests handed to one lane, and those of them that came back.
  function SubmitsOn(log: seq<Op>, lane: nat): nat {
    if log == [] then 0
    else SubmitsOn(log[..|log| - 1], lane) + (if log[|log| - 1].Submitted? && log[|log| - 1].lane == lane then 1 else 0)
  }

  function RetiresOn(log: seq<Op>, lane: nat, begin: nat, lanes: nat, rr: nat): nat
    requires lanes > 0
  {
    if log == [] then 0
    else
      var op := log[|log| - 1];
      var here := op.Retired? && op.idx >= begin && (rr + (op.idx - begin)) % lanes == lane;
      RetiresOn(log[..|log| - 1], lane, begin, lanes, rr) + (if here then 1 else 0)
  }

  lemma {:induction false} LaneCounts(log: seq<Op>, begin: nat, end: nat, window: int, lanes: nat, rr: nat, lane: nat)
    requires lane < lanes && WindowLog(log, begin, end, window, lanes, rr)
    ensures SubmitsOn(log, lane) == RoundRobin.Share(rr + Submits(log), lanes, lane) - RoundRobin.Share(rr, lanes, lane)
    ensures RetiresOn(log, lane, begin, lanes, rr)
         == RoundRobin.Share(rr + Retires(log), lanes, lane) - RoundRobin.Share(rr, lanes, lane)
  {
    if log != [] {
      LaneCounts(log[..|log| - 1], begin, end, window, lanes, rr, lane);
    }
  }

  // After any k operations of the loop no lane holds more than ceil(window / lanes)
  // unretired requests, and the totals handed to any two lanes differ by at most one.
  lemma LanePressure(log: seq<Op>, k: nat, begin: nat, end: nat, window: nat, lanes: nat, lane: nat, other: nat)
    requires k <= |log| && lane < lanes && other < lanes && WindowLog(log, begin, end, window, lanes, 0)
    ensures SubmitsOn(log[..k], lane) - RetiresOn(log[..k], lane, begin, lanes, 0) <= (window + lanes - 1) / lanes
    ensures SubmitsOn(log[..k], lane) <= SubmitsOn(log[..k], other) + 1
  {
    LogPrefix(log, k, begin, end, window, lanes, 0);
    PressureNow(log[..k], begin, end, window, lanes, lane, other);
  }

  lemma PressureNow(log: seq<Op>, begin: nat, end: nat, window: nat, lanes: nat, lane: nat, other: nat)
    requires lane < lanes && other < lanes && WindowLog(log, begin, end, window, lanes, 0)
    ensures SubmitsOn(log, lane) - RetiresOn(log, lane, begin, lanes, 0) <= (window + lanes - 1) / lanes
    ensures SubmitsOn(log, lane) <= SubmitsOn(log, other) + 1
  {
    WindowHolds(log, begin, end, window);
    LaneCounts(log, begin, end, window, lanes, 0, lane);
    LaneCounts(log, begin, end, window, lanes, 0, other);
    var held := Submits(log) - Retires(log);
    RoundRobin.WindowShare(Retires(log), held, lanes, lane);
    RoundRobin.CeilDiv(held, lanes);
    RoundRobin.CeilDiv(window, lanes);
    CeilMonotone(held, window, lanes);
    RoundRobin.ShareExact(Submits(log), lanes, lane);
    RoundRobin.ShareExact(Submits(log), lanes, other);
  }

  lemma CeilMonotone(a: nat, b: nat, d: nat)
    requires a <= b && d > 0
    ensures (a + d - 1) / d <= (b + d - 1) / d
  {
    var x, y := a + d - 1, b + d - 1;
    if x / d > y / d {
      SmallerQuotient(y / d, y % d, x / d, x % d, d);
    }
  }

  // ---- batch_wait: retire up to k ready futures per wait ----

  // One sweep over the in-flight list: (retired, remaining), in list order.
  function Sweep(inflight: seq<nat>, ready: set<nat>, k: nat): (seq<nat>, seq<nat>) {
    if inflight == [] then ([], [])
    else
      var n := |inflight| - 1;
      var (taken, kept) := Sweep(inflight[..n], ready, k);
      if |taken| < k && inflight[n] in ready then (taken + [inflight[n]], kept)
      else (taken, kept + [inflight[n]])
  }

  // The ready requests of a list, and the others, in list order.
  function Only(xs: seq<nat>, ready: set<nat>): seq<nat> {
    if xs == [] then [] else (if xs[0] in ready then [xs[0]] else []) + Only(xs[1..], ready)
  }

  function Except(xs: seq<nat>, ready: set<nat>): seq<nat> {
    if xs == [] then [] else (if xs[0] in ready then [] else [xs[0]]) + Except(xs[1..], ready)
  }

  // Up to some cut every ready request is taken and every other one is kept; behind it
  // all are kept, and it lies before the end only when k were taken.
  predicate CutAt(inflight: seq<nat>, ready: set<nat>, k: nat, cut: nat, taken: seq<nat>, kept: seq<nat>) {
    && cut <= |inflight| && |taken| <= k && (cut == |inflight| || |taken| == k)
    && taken == Only(inflight[..cut], ready)
    && kept == Except(inflight[..cut], ready) + inflight[cut..]
  }

  // The oldest ready requests are retired, at most k of them.
  ghost predicate OldestReady(inflight: seq<nat>, ready: set<nat>, k: nat, taken: seq<nat>, kept: seq<nat>) {
    exists cut: nat :: CutAt(inflight, ready, k, cut, taken, kept)
  }

  lemma {:induction false} OnlySnoc(xs: seq<nat>, x: nat, ready: set<nat>)
    ensures Only(xs + [x], ready) == Only(xs, ready) + (if x in ready then [x] else [])
  {
    if xs == [] {
      assert xs + [x] == [x];
    } else {
      assert (xs + [x])[1..] == xs[1..] + [x];
      OnlySnoc(xs[1..], x, ready);
    }
  }

  lemma {:induction false} ExceptSnoc(xs: seq<nat>, x: nat, ready: set<nat>)
    ensures Except(xs + [x], ready) == Except(xs, ready) + (if x in ready then [] else [x])
  {
    if xs == [] {
      assert xs + [x] == [x];
    } else {
      assert (xs + [x])[1..] == xs[1..] + [x];
      ExceptSnoc(xs[1..], x, ready);
    }
  }

  lemma {:induction false} SweepCut(inflight: seq<nat>, ready: set<nat>, k: nat) returns (cut: nat)
    ensures var (taken, kept) := Sweep(inflight, ready, k); CutAt(inflight, ready, k, cut, taken, kept)
  {
    cut := 0;
    if inflight != [] {
      var n := |inflight| - 1;
      var init, x := inflight[..n], inflight[n];
      cut := SweepCut(init, ready, k);
      var (taken, kept) := Sweep(init, ready, k);
      assert inflight == init + [x];
      if cut == n && (|taken| < k || x !in ready) {
        assert init[..n] == init && inflight[..n + 1] == inflight;
        OnlySnoc(init, x, ready);
        ExceptSnoc(init, x, ready);
        cut := n + 1;
      } else {
        assert inflight[..cut] == init[..cut] && inflight[cut..] == init[cut..] + [x];
      }
    }
  }

  // A sweep retires the oldest ready requests and keeps the rest in order.
  lemma SweepIsOldest(inflight: seq<nat>, ready: set<nat>, k: nat)
    ensures var (taken, kept) := Sweep(inflight, ready, k); OldestReady(inflight, ready, k, taken, kept)
  {
    var cut := SweepCut(inflight, ready, k);
  }

  lemma {:induction false} SweepConserves(inflight: seq<nat>, ready: set<nat>, k: nat)
    ensures var (taken, kept) := Sweep(inflight, ready, k);
            && |taken| <= k && |taken| + |kept| == |inflight|
            && multiset(taken) + multiset(kept) == multiset(inflight)
            && (forall x :: x in taken ==> x in ready)
  {
    if inflight != [] {
      var n := |inflight| - 1;
      SweepConserves(inflight[..n], ready, k);
      assert inflight == inflight[..n] + [inflight[n]];
    }
  }

  lemma {:induction false} SweepTakesOne(inflight: seq<nat>, ready: set<nat>, k: nat, x: nat)
    requires k >= 1 && x in inflight && x in ready
    ensures |Sweep(inflight, ready, k).0| >= 1
  {
    var n := |inflight| - 1;
    if x in inflight[..n] {
      SweepTakesOne(inflight[..n], ready, k, x);
    }
  }

  lemma SweepMakesProgress(inflight: seq<nat>, ready: set<nat>, k: nat)
    requires k >= 1 && HasReady(inflight, ready)
    ensures var (taken, kept) := Sweep(inflight, ready, k);
            && 1 <= |taken| <= k && |taken| + |kept| == |inflight|
            && multiset(taken) + multiset(kept) == multiset(inflight)
  {
    SweepConserves(inflight, ready, k);
    var x :| x in inflight && x in ready;
    SweepTakesOne(inflight, ready, k, x);
  }

  // A ready request is passed over only when k others were taken.
  lemma {:induction false} SweepTakesTheOldest(inflight: seq<nat>, ready: set<nat>, k: nat, x: nat)
    requires x in Sweep(inflight, ready, k).1 && x in ready
    ensures |Sweep(inflight, ready, k).0| == k
  {
    var n := |inflight| - 1;
    SweepConserves(inflight, ready, k);
    var (taken, kept) := Sweep(inflight[..n], ready, k);
    SweepConserves(inflight[..n], ready, k);
    if x in kept {
      SweepTakesTheOldest(inflight[..n], ready, k, x);
    }
  }

  datatype Round = Round(before: seq<nat>, taken: seq<nat>, kept: seq<nat>)

  function Taken(rounds: seq<Round>): seq<nat> {
    if rounds == [] then [] else Taken(rounds[..|rounds| - 1]) + rounds[|rounds| - 1].taken
  }

  // How many requests were submitted when the rounds are over: the window is filled
  // up after each.
  function Handed(rounds: seq<Round>, count: nat, concurrency: nat): nat {
    Min(count, concurrency + |Taken(rounds)|)
  }

  // The in-flight list the next wait finds: what the last sweep kept, then the new
  // submissions.
  function Waiting(rounds: seq<Round>, count: nat, concurrency: nat): seq<nat> {
    if rounds == [] then Range(0, Min(count, concurrency))
    else
      var past := rounds[..|rounds| - 1];
      rounds[|rounds| - 1].kept + Range(Handed(past, count, concurrency), Handed(rounds, count, concurrency))
  }

  // Which futures are ready at each wait, given the in-flight list.
  type Readiness = (nat, seq<nat>) -> set<nat>

  // The wait after `past` retired the oldest k ready requests, at least one.
  ghost predicate RoundOk(past: seq<Round>, r: Round, ready: Readiness, count: nat, concurrency: nat, k: nat) {
    && r.before == Waiting(past, count, concurrency)
    && 1 <= |r.taken|
    && OldestReady(r.before, ready(|past|, r.before), k, r.taken, r.kept)
  }

  ghost predicate RoundsOk(rounds: seq<Round>, ready: Readiness, count: nat, concurrency: nat, k: nat) {
    forall j {:trigger RoundOk(rounds[..j], rounds[j], ready, count, concurrency, k)} ::
      0 <= j < |rounds| ==> RoundOk(rounds[..j], rounds[j], ready, count, concurrency, k)
  }

  predicate HasReady(inflight: seq<nat>, rdy: set<nat>) {
    exists x :: x in inflight && x in rdy
  }

  // wait_any returns once some in-flight future is ready.
  ghost predicate WaitsReturn(ready: Readiness) {
    forall wait: nat, inflight: seq<nat> :: inflight != [] ==> HasReady(inflight, ready(wait, inflight))
  }

  // Each of the requests 0..count-1 is submitted and retired exactly once.
  method BatchWait(count: nat, concurrency: nat, k: nat, ready: Readiness)
      returns (results: seq<nat>, rounds: seq<Round>)
    requires concurrency >= 1 && k >= 1 && WaitsReturn(ready)
    ensures multiset(results) == multiset(Range(0, count))
    ensures results == Taken(rounds) && RoundsOk(rounds, ready, count, concurrency, k) && |rounds| <= count
  {
    results, rounds := [], [];
    var inflight, next := Fill(count, concurrency);
    while inflight != []
      invariant Accounted(results, inflight, next, count, concurrency)
      invariant Recorded(results, inflight, rounds, ready, count, concurrency, k)
      decreases count - |results|
    {
      assert HasReady(inflight, ready(|rounds|, inflight));
      results, inflight, next, rounds :=
        OneRound(results, inflight, next, rounds, ready, count, concurrency, k);
    }
  }

  // The initial window.
  method Fill(count: nat, concurrency: nat) returns (inflight: seq<nat>, next: nat)
    ensures next == Min(count, concurrency) && inflight == Range(0, next)
    ensures Accounted([], inflight, next, count, concurrency)
  {
    inflight, next := [], 0;
    while next < count && |inflight| < concurrency
      invariant next <= count && inflight == Range(0, next) && |inflight| <= concurrency
    {
      inflight := inflight + [next];
      next := next + 1;
    }
  }

  // Retired and in-flight requests together are the ones submitted so far, and
  // the window is full until the submissions run out.
  ghost predicate Accounted(results: seq<nat>, inflight: seq<nat>, next: nat, count: nat, concurrency: nat) {
    && next <= count && |results| + |inflight| == next
    && |inflight| == Min(concurrency, count - |results|)
    && multiset(results) + multiset(inflight) == multiset(Range(0, next))
  }

  ghost predicate Recorded(results: seq<nat>, inflight: seq<nat>, rounds: seq<Round>, ready: Readiness,
                           count: nat, concurrency: nat, k: nat) {
    && inflight == Waiting(rounds, count, concurrency) && results == Taken(rounds)
    && RoundsOk(rounds, ready, count, concurrency, k) && |rounds| <= |results|
  }

  // One turn of the loop after wait_any: sweep, then refill.
  method OneRound(results: seq<nat>, inflight: seq<nat>, next: nat, rounds: seq<Round>, ready: Readiness,
                  count: nat, concurrency: nat, k: nat)
      returns (results': seq<nat>, inflight': seq<nat>, next': nat, rounds': seq<Round>)
    requires Accounted(results, inflight, next, count, concurrency)
    requires Recorded(results, inflight, rounds, ready, count, concurrency, k)
    requires k >= 1 && HasReady(inflight, ready(|rounds|, inflight))
    ensures |results'| > |results|
    ensures Accounted(results', inflight', next', count, concurrency)
    ensures Recorded(results', inflight', rounds', ready, count, concurrency, k)
  {
    var taken, remaining := SweepReady(inflight, ready(|rounds|, inflight), k);
    results' := results + taken;
    rounds' := LogRound(results, rounds, Round(inflight, taken, remaining), ready, count, concurrency, k);
    inflight', next' := Refill(remaining, next, |taken|, count);
    RoundAccounts(results, inflight, next, taken, remaining, next', count, concurrency);
  }

  // The sweep when something is ready.
  method SweepReady(inflight: seq<nat>, rdy: set<nat>, k: nat) returns (taken: seq<nat>, remaining: seq<nat>)
    requires k >= 1 && HasReady(inflight, rdy)
    ensures OldestReady(inflight, rdy, k, taken, remaining) && |taken| >= 1
    ensures |taken| + |remaining| == |inflight| && multiset(taken) + multiset(remaining) == multiset(inflight)
  {
    taken, remaining := SweepOnce(inflight, rdy, k);
    SweepMakesProgress(inflight, rdy, k);
  }

  lemma RoundAccounts(results: seq<nat>, inflight: seq<nat>, next: nat, taken: seq<nat>, kept: seq<nat>, next': nat,
                      count: nat, concurrency: nat)
    requires Accounted(results, inflight, next, count, concurrency)
    requires |taken| + |kept| == |inflight| && multiset(taken) + multiset(kept) == multiset(inflight)
    requires next' == Min(next + |taken|, count)
    ensures next == Min(count, concurrency + |results|) && next' == Min(count, concurrency + |results| + |taken|)
    ensures Accounted(results + taken, kept + Range(next, next'), next', count, concurrency)
  {
    RoundConserves(results, inflight, taken, kept, next, next');
  }

  lemma RoundConserves(results: seq<nat>, inflight: seq<nat>, taken: seq<nat>, kept: seq<nat>, next: nat, next': nat)
    requires multiset(results) + multiset(inflight) == multiset(Range(0, next))
    requires multiset(taken) + multiset(kept) == multiset(inflight)
    requires next <= next'
    ensures multiset(results + taken) + multiset(kept + Range(next, next')) == multiset(Range(0, next'))
  {
    RangeSplits(0, next, next');
    calc {
      multiset(results + taken) + multiset(kept + Range(next, next'));
      multiset(results) + (multiset(taken) + multiset(kept)) + multiset(Range(next, next'));
      multiset(Range(0, next)) + multiset(Range(next, next'));
      multiset(Range(0, next) + Range(next, next'));
    }
  }

  // The sweep of one round.
  method SweepOnce(inflight: seq<nat>, rdy: set<nat>, k: nat) returns (taken: seq<nat>, remaining: seq<nat>)
    ensures (taken, remaining) == Sweep(inflight, rdy, k) && OldestReady(inflight, rdy, k, taken, remaining)
  {
    taken, remaining := [], [];
    for j := 0 to |inflight|
      invariant (taken, remaining) == Sweep(inflight[..j], rdy, k)
    {
      assert inflight[..j + 1][..j] == inflight[..j];
      if |taken| < k && inflight[j] in rdy {
        taken := taken + [inflight[j]];
      } else {
        remaining := remaining + [inflight[j]];
      }
    }
    assert inflight[..|inflight|] == inflight;
    SweepIsOldest(inflight, rdy, k);
  }

  // One new submission per retired request, while there are any.
  method Refill(remaining: seq<nat>, next0: nat, retired: nat, count: nat) returns (inflight: seq<nat>, next: nat)
    requires next0 <= count
    ensures next == Min(next0 + retired, count) && inflight == remaining + Range(next0, next)
  {
    inflight, next := remaining, next0;
    var j := 0;
    while j < retired && next < count
      invariant 0 <= j <= retired && next == next0 + j <= count && inflight == remaining + Range(next0, next)
    {
      inflight := inflight + [next];
      next := next + 1;
      j := j + 1;
    }
  }

  lemma RoundsAppend(rounds: seq<Round>, r: Round, ready: Readiness, count: nat, concurrency: nat, k: nat)
    requires RoundsOk(rounds, ready, count, concurrency, k) && RoundOk(rounds, r, ready, count, concurrency, k)
    ensures RoundsOk(rounds + [r], ready, count, concurrency, k)
  {
    var rounds' := rounds + [r];
    forall j | 0 <= j < |rounds'|
      ensures RoundOk(rounds'[..j], rounds'[j], ready, count, concurrency, k)
    {
      if j < |rounds| {
        assert rounds'[..j] == rounds[..j] && RoundOk(rounds[..j], rounds[j], ready, count, concurrency, k);
      } else {
        assert rounds'[..j] == rounds;
      }
    }
  }

  // Recording one more round.
  function LogRound(results: seq<nat>, rounds: seq<Round>, r: Round, ghost ready: Readiness,
                    ghost count: nat, ghost concurrency: nat, ghost k: nat): (rounds': seq<Round>)
    requires Recorded(results, r.before, rounds, ready, count, concurrency, k)
    requires |r.taken| >= 1 && OldestReady(r.before, ready(|rounds|, r.before), k, r.taken, r.kept)
    ensures var next, next' := Handed(rounds, count, concurrency), Min(count, concurrency + |results| + |r.taken|);
            Recorded(results + r.taken, r.kept + Range(next, next'), rounds', ready, count, concurrency, k)
  {
    assert (rounds + [r])[..|rounds|] == rounds;
    RoundsAppend(rounds, r, ready, count, concurrency, k);
    rounds + [r]
  }
}
