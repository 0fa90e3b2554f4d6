// Multi-client one_by_one: contiguous blocks of the index space, a slice of the
// window per client thread, and one shared round-robin counter.
module MultiClient {
  import opened Basics
  import RoundRobin
  import RetireLoops

  // ---- The partition ----

  function ThreadCount(clientThreads: nat, n: nat): nat {
    Min(clientThreads, Max(1, n))
  }

  // Where client k's block starts; client k works on [Cut(k), Cut(k + 1)).
  function Cut(n: nat, t: nat, k: nat): nat
    requires t > 0
  {
    n * k / t
  }

  function Window(concurrency: nat, t: nat, k: nat): nat
    requires t > 0
  {
    Max(1, concurrency / t + (if k < concurrency % t then 1 else 0))
  }

  // Cutting points grow by at least one per client when there are enough requests.
  lemma CutStep(n: nat, t: nat, k: nat)
    requires t > 0
    ensures Cut(n, t, k) <= Cut(n, t, k + 1)
    ensures n >= t ==> Cut(n, t, k) < Cut(n, t, k + 1)
  {
    assert n * (k + 1) == n * k + n;
    RoundRobin.SumDivMod(n * k, n, t);
    if n >= t {
      AtLeastOne(n, t);
    }
  }

  lemma AtLeastOne(n: nat, d: nat)
    requires 0 < d <= n
    ensures n / d >= 1
  {
    if n / d < 1 {
      SmallerQuotient(n / d, n % d, 1, 0, d);
    }
  }

  // The blocks are disjoint, cover [0, n) in order, and none is empty when n >= 1.
  lemma {:induction false} BlocksTile(n: nat, t: nat, k: nat)
    requires 0 < t <= Max(1, n) && k <= t
    ensures Cut(n, t, 0) == 0 && Cut(n, t, t) == n
    ensures Cut(n, t, k) <= n
    ensures n >= 1 ==> forall j :: 0 <= j < k ==> Cut(n, t, j) < Cut(n, t, j + 1)
    decreases t - k
  {
    DivUnique(0, t, 0, 0);
    DivUnique(n * t, t, n, 0);
    if k < t {
      BlocksTile(n, t, k + 1);
      CutStep(n, t, k);
    }
    forall j | 0 <= j < k && n >= 1
      ensures Cut(n, t, j) < Cut(n, t, j + 1)
    {
      CutStep(n, t, j);
    }
  }

  // Cuts are as even as whole numbers allow: any two blocks differ by at most one
  // request, and a cut is never more than one request short of its share.
  lemma BlocksAreEven(n: nat, t: nat, j: nat, k: nat)
    requires t > 0
    ensures t * Cut(n, t, k) <= n * k < t * Cut(n, t, k) + t
    ensures Cut(n, t, k + 1) - Cut(n, t, k) <= Cut(n, t, j + 1) - Cut(n, t, j) + 1
  {
    RoundRobin.DivMod(n * k, t);
    RoundRobin.Commute(Cut(n, t, k), t);
    BlockSize(n, t, j);
    BlockSize(n, t, k);
  }

  lemma BlockSize(n: nat, t: nat, k: nat)
    requires t > 0
    ensures n / t <= Cut(n, t, k + 1) - Cut(n, t, k) <= n / t + 1
  {
    assert n * (k + 1) == n * k + n;
    RoundRobin.SumDivMod(n * k, n, t);
  }

  // No window is empty; windows differ by at most one, the wider ones first.
  lemma WindowsAreEven(concurrency: nat, t: nat, j: nat, k: nat)
    requires t > 0 && j <= k
    ensures 1 <= Window(concurrency, t, k) <= Window(concurrency, t, j) <= Window(concurrency, t, k) + 1
  {
  }

  ghost function WindowSum(concurrency: nat, t: nat, k: nat): nat
    requires t > 0
  {
    if k == 0 then 0 else WindowSum(concurrency, t, k - 1) + Window(concurrency, t, k - 1)
  }

  lemma {:induction false} WindowPrefix(concurrency: nat, t: nat, k: nat)
    requires 0 < t <= concurrency && k <= t
    ensures WindowSum(concurrency, t, k) == k * (concurrency / t) + Min(k, concurrency % t)
  {
    if k > 0 {
      WindowPrefix(concurrency, t, k - 1);
      assert k * (concurrency / t) == (k - 1) * (concurrency / t) + concurrency / t;
      AtLeastOne(concurrency, t);
    }
  }

  lemma {:induction false} WindowOnes(concurrency: nat, t: nat, k: nat)
    requires concurrency < t && k <= t
    ensures WindowSum(concurrency, t, k) == k
  {
    if k > 0 {
      WindowOnes(concurrency, t, k - 1);
      DivUnique(concurrency, t, 0, concurrency);
    }
  }

  // The windows add up to max(concurrency, threads).
  lemma WindowsSum(concurrency: nat, t: nat)
    requires t > 0
    ensures WindowSum(concurrency, t, t) == Max(concurrency, t)
    ensures WindowSum(concurrency, t, t) == concurrency <==> t <= concurrency
  {
    if t <= concurrency {
      WindowPrefix(concurrency, t, t);
      RoundRobin.WholeShares(concurrency, t);
    } else {
      WindowOnes(concurrency, t, t);
    }
  }

  // dispatch_one_by_one_threaded, with the threads' loops run to the end one by one: a
  // client's records do not depend on the others. Each of the min(clients, requests)
  // threads works on its own block with its own window, routed by the shared counter;
  // the merged records are those of the single client, in the same order.
  method DispatchThreaded(count: nat, concurrency: nat, clientThreads: nat, lanes: nat)
      returns (results: seq<nat>, ghost logs: seq<seq<RetireLoops.Op>>)
    requires clientThreads >= 1 && lanes >= 1
    ensures results == Range(0, count)
    ensures |logs| == (if count == 0 then 1 else Min(clientThreads, count))
    ensures forall k :: 0 <= k < |logs| ==> ClientLog(logs[k], count, concurrency, |logs|, lanes, k)
  {
    var t := ThreadCount(clientThreads, count);
    results, logs := [], [];
    var rr := 0;
    BlocksTile(count, t, 0);
    for k := 0 to t
      invariant results == Range(0, Cut(count, t, k)) && rr == Cut(count, t, k) && |logs| == k
      invariant forall j :: 0 <= j < k ==> ClientLog(logs[j], count, concurrency, t, lanes, j)
    {
      CutStep(count, t, k);
      var partial, log :=
        RetireLoops.OneByOne(Cut(count, t, k), Cut(count, t, k + 1), Window(concurrency, t, k), lanes, rr);
      RangeSplits(0, Cut(count, t, k), Cut(count, t, k + 1));
      results := results + partial;
      logs := logs + [log];
      rr := rr + RetireLoops.Submits(log);
    }
  }

  // Client k of t submitted and retired its whole block within its window; the clients
  // before it had submitted theirs.
  ghost predicate ClientLog(log: seq<RetireLoops.Op>, count: nat, concurrency: nat, t: nat, lanes: nat, k: nat)
    requires t > 0 && lanes > 0
  {
    var begin, end := Cut(count, t, k), Cut(count, t, k + 1);
    && RetireLoops.WindowLog(log, begin, end, Window(concurrency, t, k), lanes, begin)
    && begin + RetireLoops.Submits(log) == begin + RetireLoops.Retires(log) == end
  }

  // ---- All interleavings of the client threads ----

  // Client state: requests [lo, next) submitted, [lo, retired) retired.
  datatype Client = Client(lo: nat, hi: nat, window: nat, next: nat, retired: nat)

  // `rr` is the shared atomic counter, `loads[l]` what lane l was handed.
  datatype State = State(clients: seq<Client>, rr: nat, loads: seq<nat>)

  datatype Event = SubmitBy(k: nat) | RetireBy(k: nat)

  function Init(n: nat, concurrency: nat, t: nat, lanes: nat): State
    requires t > 0
  {
    State(seq(t, k requires 0 <= k => NewClient(n, concurrency, t, k)), 0, seq(lanes, _ => 0))
  }

  function NewClient(n: nat, concurrency: nat, t: nat, k: nat): Client
    requires t > 0
  {
    Client(Cut(n, t, k), Cut(n, t, k + 1), Window(concurrency, t, k), Cut(n, t, k), Cut(n, t, k))
  }

  function InFlight(c: Client): nat {
    if c.retired <= c.next then c.next - c.retired else 0
  }

  // A client submits while its window has room; it retires its oldest when the
  // window is full or its block is exhausted.
  predicate Enabled(s: State, e: Event) {
    && e.k < |s.clients| && |s.loads| > 0
    && var c := s.clients[e.k];
       match e
       case SubmitBy(_) => c.next < c.hi && InFlight(c) < c.window
       case RetireBy(_) => InFlight(c) > 0 && (c.next >= c.hi || InFlight(c) >= c.window)
  }

  function Step(s: State, e: Event): State
    requires Enabled(s, e)
  {
    var c := s.clients[e.k];
    match e
    case SubmitBy(k) =>
      var lane := s.rr % |s.loads|;
      State(s.clients[k := c.(next := c.next + 1)], s.rr + 1, s.loads[lane := s.loads[lane] + 1])
    case RetireBy(k) => s.(clients := s.clients[k := c.(retired := c.retired + 1)])
  }

  ghost predicate Legal(s: State, es: seq<Event>)
    decreases |es|
  {
    es == [] || (Enabled(s, es[0]) && Legal(Step(s, es[0]), es[1..]))
  }

  ghost function Run(s: State, es: seq<Event>): State
    requires Legal(s, es)
    decreases |es|
  {
    if es == [] then s else Run(Step(s, es[0]), es[1..])
  }

  function Submitted(c: Client): nat {
    if c.lo <= c.next then c.next - c.lo else 0
  }

  function Todo(c: Client): nat {
    (if c.next <= c.hi then c.hi - c.next else 0) + (if c.retired <= c.hi then c.hi - c.retired else 0)
  }

  ghost predicate Inv(s: State) {
    && |s.loads| > 0
    && (forall k :: 0 <= k < |s.clients| ==>
          var c := s.clients[k];
          c.lo <= c.retired <= c.next <= c.hi && InFlight(c) <= c.window && 1 <= c.window)
    && s.rr == SumOf(s.clients, Submitted)
    && (forall l :: 0 <= l < |s.loads| ==> s.loads[l] == RoundRobin.Share(s.rr, |s.loads|, l))
  }

  lemma StepSums(s: State, e: Event)
    requires Inv(s) && Enabled(s, e)
    ensures SumOf(Step(s, e).clients, Submitted) == SumOf(s.clients, Submitted) + (if e.SubmitBy? then 1 else 0)
    ensures SumOf(Step(s, e).clients, Todo) + 1 == SumOf(s.clients, Todo)
    ensures SumOf(Step(s, e).clients, ClientWindow) == SumOf(s.clients, ClientWindow)
  {
    var c' := Step(s, e).clients[e.k];
    SumUpdate(s.clients, e.k, c', Submitted);
    SumUpdate(s.clients, e.k, c', Todo);
    SumUpdate(s.clients, e.k, c', ClientWindow);
  }

  lemma StepInv(s: State, e: Event)
    requires Inv(s) && Enabled(s, e)
    ensures Inv(Step(s, e))
    ensures SumOf(Step(s, e).clients, Todo) + 1 == SumOf(s.clients, Todo)
    ensures SumOf(Step(s, e).clients, ClientWindow) == SumOf(s.clients, ClientWindow)
  {
    StepSums(s, e);
  }

  function ClientWindow(c: Client): nat {
    c.window
  }

  lemma {:induction false} RunInv(s: State, es: seq<Event>)
    requires Inv(s) && Legal(s, es)
    ensures Inv(Run(s, es)) && |Run(s, es).loads| == |s.loads|
    ensures |es| + SumOf(Run(s, es).clients, Todo) == SumOf(s.clients, Todo)
    ensures SumOf(Run(s, es).clients, ClientWindow) == SumOf(s.clients, ClientWindow)
    decreases |es|
  {
    if es != [] {
      StepInv(s, es[0]);
      RunInv(Step(s, es[0]), es[1..]);
    }
  }

  lemma {:induction false} InitSums(n: nat, concurrency: nat, t: nat, lanes: nat, k: nat)
    requires 0 < t <= Max(1, n) && k <= t
    ensures var clients := Init(n, concurrency, t, lanes).clients[..k];
            && SumOf(clients, Submitted) == 0
            && SumOf(clients, Todo) == 2 * Cut(n, t, k)
            && SumOf(clients, ClientWindow) == WindowSum(concurrency, t, k)
  {
    BlocksTile(n, t, k);
    if k > 0 {
      InitSums(n, concurrency, t, lanes, k - 1);
      var all := Init(n, concurrency, t, lanes).clients;
      var c := NewClient(n, concurrency, t, k - 1);
      assert all[..k] == all[..k - 1] + [c];
      OneClient(n, concurrency, t, k - 1);
      SumConcat(all[..k - 1], [c], Submitted);
      SumConcat(all[..k - 1], [c], Todo);
      SumConcat(all[..k - 1], [c], ClientWindow);
    }
  }

  lemma OneClient(n: nat, concurrency: nat, t: nat, k: nat)
    requires t > 0
    ensures var c := [NewClient(n, concurrency, t, k)];
            && SumOf(c, Submitted) == 0
            && SumOf(c, Todo) == 2 * (Cut(n, t, k + 1) - Cut(n, t, k))
            && SumOf(c, ClientWindow) == Window(concurrency, t, k)
  {
    CutStep(n, t, k);
  }

  lemma {:induction false} SumLe(cs: seq<Client>)
    requires forall k :: 0 <= k < |cs| ==> InFlight(cs[k]) <= cs[k].window
    ensures SumOf(cs, InFlight) <= SumOf(cs, ClientWindow)
  {
    if cs != [] {
      SumLe(cs[1..]);
    }
  }

  lemma ReachableInv(n: nat, concurrency: nat, t: nat, lanes: nat, es: seq<Event>)
    requires 0 < t <= Max(1, n) && lanes > 0
    requires Legal(Init(n, concurrency, t, lanes), es)
    ensures var s := Run(Init(n, concurrency, t, lanes), es);
            && Inv(s) && |s.loads| == lanes
            && |es| + SumOf(s.clients, Todo) == 2 * n
            && SumOf(s.clients, ClientWindow) == WindowSum(concurrency, t, t)
  {
    var s0 := Init(n, concurrency, t, lanes);
    BlocksTile(n, t, t);
    InitSums(n, concurrency, t, lanes, t);
    assert s0.clients[..t] == s0.clients;
    forall k | 0 <= k < t
      ensures s0.clients[k].lo <= s0.clients[k].hi
    {
      CutStep(n, t, k);
    }
    RunInv(s0, es);
  }

  // A client retires only while its window is full or its whole rest is in flight.
  lemma ClientHoldsItsWindow(n: nat, concurrency: nat, t: nat, lanes: nat, es: seq<Event>, k: nat)
    requires 0 < t <= Max(1, n) && lanes > 0
    requires Legal(Init(n, concurrency, t, lanes), es) && Enabled(Run(Init(n, concurrency, t, lanes), es), RetireBy(k))
    ensures var c := Run(Init(n, concurrency, t, lanes), es).clients[k];
            InFlight(c) == Min(c.window, c.hi - c.retired) >= 1
  {
    ReachableInv(n, concurrency, t, lanes, es);
  }

  // In every interleaving of the clients: at most max(concurrency, threads)
  // requests are in flight, each client's in-flight requests are one contiguous
  // range of its block, lane loads differ by at most one, and the clients finish
  // after exactly 2n steps, having retired the whole index space.
  lemma EveryInterleaving(n: nat, concurrency: nat, t: nat, lanes: nat, es: seq<Event>, l: nat, l': nat)
    requires 0 < t <= Max(1, n) && l < lanes && l' < lanes
    requires Legal(Init(n, concurrency, t, lanes), es)
    ensures var s := Run(Init(n, concurrency, t, lanes), es);
            && SumOf(s.clients, InFlight) <= Max(concurrency, t)
            && |s.loads| == lanes && s.loads[l] <= s.loads[l'] + 1
            && (forall k :: 0 <= k < |s.clients| ==>
                  s.clients[k].lo <= s.clients[k].retired <= s.clients[k].next <= s.clients[k].hi)
            && |es| <= 2 * n
            && ((forall e :: !Enabled(s, e)) ==>
                  |es| == 2 * n && forall k :: 0 <= k < |s.clients| ==> s.clients[k].retired == s.clients[k].hi)
  {
    var s := Run(Init(n, concurrency, t, lanes), es);
    ReachableInv(n, concurrency, t, lanes, es);
    SumLe(s.clients);
    WindowsSum(concurrency, t);
    RoundRobin.ShareExact(s.rr, lanes, l);
    RoundRobin.ShareExact(s.rr, lanes, l');
    if forall e :: !Enabled(s, e) {
      AllRetired(s);
    }
  }

  lemma AllRetired(s: State)
    requires Inv(s) && forall e :: !Enabled(s, e)
    ensures forall k :: 0 <= k < |s.clients| ==> s.clients[k].retired == s.clients[k].hi
    ensures SumOf(s.clients, Todo) == 0
  {
    forall k | 0 <= k < |s.clients|
      ensures s.clients[k].retired == s.clients[k].next == s.clients[k].hi
    {
      assert !Enabled(s, SubmitBy(k)) && !Enabled(s, RetireBy(k));
    }
    SumBound(s.clients, Todo, 0);
  }

  // ---- The merged records ----

  // The threads' result vectors one after the other; a client retires its requests
  // in index order.
  function Merged(clients: seq<Client>): seq<nat> {
    if clients == [] then []
    else Merged(clients[..|clients| - 1]) + Range(clients[|clients| - 1].lo, clients[|clients| - 1].retired)
  }

  lemma {:induction false} RunKeepsBlocks(s: State, es: seq<Event>)
    requires Legal(s, es)
    ensures |Run(s, es).clients| == |s.clients|
    ensures forall k :: 0 <= k < |s.clients| ==>
              Run(s, es).clients[k].lo == s.clients[k].lo && Run(s, es).clients[k].hi == s.clients[k].hi
    decreases |es|
  {
    if es != [] {
      RunKeepsBlocks(Step(s, es[0]), es[1..]);
    }
  }

  lemma {:induction false} MergedBlocks(clients: seq<Client>, n: nat, t: nat)
    requires 0 < t <= Max(1, n) && |clients| <= t
    requires forall k :: 0 <= k < |clients| ==>
      clients[k].lo == Cut(n, t, k) && clients[k].retired == Cut(n, t, k + 1)
    ensures Merged(clients) == Range(0, Cut(n, t, |clients|))
  {
    BlocksTile(n, t, 0);
    if clients != [] {
      var k := |clients| - 1;
      MergedBlocks(clients[..k], n, t);
      CutStep(n, t, k);
      RangeSplits(0, Cut(n, t, k), Cut(n, t, k + 1));
    }
  }

  // However the clients interleave, once they have all finished the merged records
  // are those of the single client, in the same order.
  lemma EveryInterleavingMerges(n: nat, concurrency: nat, t: nat, lanes: nat, es: seq<Event>)
    requires 0 < t <= Max(1, n) && lanes > 0
    requires Legal(Init(n, concurrency, t, lanes), es)
    requires forall e :: !Enabled(Run(Init(n, concurrency, t, lanes), es), e)
    ensures Merged(Run(Init(n, concurrency, t, lanes), es).clients) == Range(0, n)
  {
    EveryInterleaving(n, concurrency, t, lanes, es, 0, 0);
    RunKeepsBlocks(Init(n, concurrency, t, lanes), es);
    BlocksTile(n, t, t);
    MergedBlocks(Run(Init(n, concurrency, t, lanes), es).clients, n, t);
  }

  // ---- Is the total in flight held at --concurrency? ----

  lemma {:induction false} Append(s: State, es: seq<Event>, e: Event)
    requires Legal(s, es) && Enabled(Run(s, es), e)
    ensures Legal(s, es + [e]) && Run(s, es + [e]) == Step(Run(s, es), e)
    decreases |es|
  {
    if es == [] {
      assert Run(Step(s, e), []) == Step(s, e);
      assert (es + [e])[1..] == [];
    } else {
      assert (es + [e])[1..] == es[1..] + [e];
      Append(Step(s, es[0]), es[1..], e);
    }
  }

  // The first k clients have one request each in flight, the others none yet.
  ghost predicate OneEach(clients: seq<Client>, n: nat, concurrency: nat, t: nat, k: nat)
    requires t > 0
  {
    && |clients| == t
    && forall j :: 0 <= j < t ==>
         clients[j] == NewClient(n, concurrency, t, j).(next := Cut(n, t, j) + if j < k then 1 else 0)
  }

  // Each of the first k clients submits once.
  lemma {:induction false} SubmitOneEach(n: nat, concurrency: nat, t: nat, lanes: nat, k: nat) returns (es: seq<Event>)
    requires 0 < t <= n && lanes > 0 && k <= t
    ensures Legal(Init(n, concurrency, t, lanes), es)
    ensures var s := Run(Init(n, concurrency, t, lanes), es);
            |s.loads| == lanes && OneEach(s.clients, n, concurrency, t, k)
  {
    es := [];
    if k > 0 {
      es := SubmitOneEach(n, concurrency, t, lanes, k - 1);
      CutStep(n, t, k - 1);
      Append(Init(n, concurrency, t, lanes), es, SubmitBy(k - 1));
      es := es + [SubmitBy(k - 1)];
    }
  }

  // A run that has as many requests in flight as there are client threads.
  lemma ThreadsInFlight(n: nat, concurrency: nat, t: nat, lanes: nat) returns (es: seq<Event>)
    requires 0 < t <= n && lanes > 0
    ensures Legal(Init(n, concurrency, t, lanes), es)
    ensures SumOf(Run(Init(n, concurrency, t, lanes), es).clients, InFlight) == t
  {
    es := SubmitOneEach(n, concurrency, t, lanes, t);
    SumAll(Run(Init(n, concurrency, t, lanes), es).clients, InFlight);
  }

  ghost predicate HeldAtConcurrency(n: nat, concurrency: nat, t: nat, lanes: nat)
    requires t > 0
  {
    forall es :: Legal(Init(n, concurrency, t, lanes), es) ==>
      SumOf(Run(Init(n, concurrency, t, lanes), es).clients, InFlight) <= concurrency
  }

  // Every interleaving keeps the total in flight within --concurrency if and only if
  // there are no more client threads than that, or nothing to do.
  lemma InFlightHeldIff(n: nat, concurrency: nat, t: nat, lanes: nat)
    requires 0 < t <= Max(1, n) && lanes > 0
    ensures HeldAtConcurrency(n, concurrency, t, lanes) <==> t <= concurrency || n == 0
  {
    if t <= concurrency || n == 0 {
      forall es | Legal(Init(n, concurrency, t, lanes), es)
        ensures SumOf(Run(Init(n, concurrency, t, lanes), es).clients, InFlight) <= concurrency
      {
        EveryInterleaving(n, concurrency, t, lanes, es, 0, 0);
        if n == 0 {
          assert es == [];
          SumBound(Init(n, concurrency, t, lanes).clients, InFlight, 0);
        }
      }
    } else {
      var es := ThreadsInFlight(n, concurrency, t, lanes);
    }
  }
}
