// Bounded admission by rejection: what the cap of try_submit guarantees.
module LaneAdmission {
  import opened Basics
  import opened TokenSpec
  import opened LaneMachine
  import opened LaneInvariant
  import RoundRobin

  // Every submission of the run is a try_submit with this cap.
  ghost predicate CapOnly(es: seq<Event>, cap: int) {
    forall k :: 0 <= k < |es| ==>
      !es[k].Submit? && !es[k].SubmitBulk? && (es[k].TrySubmit? ==> es[k].cap == cap)
  }

  ghost function Attempts(es: seq<Event>): nat {
    if es == [] then 0 else (if es[0].TrySubmit? then 1 else 0) + Attempts(es[1..])
  }

  // The queue bound, the footprint bound, and the admitted count, kept by each step.
  ghost predicate Bounded(s: State, cap: int, attempts: nat) {
    && |s.queue| <= Max(cap, 0)
    && Min(attempts, Max(cap, 0)) <= |s.cells| <= attempts
  }

  lemma StepBounded(s: State, e: Event, cap: int, attempts: nat)
    requires Enabled(s, e) && CapOnly([e], cap) && Bounded(s, cap, attempts)
    requires Inv(s)
    ensures Bounded(Step(s, e), cap, attempts + if e.TrySubmit? then 1 else 0)
  {
    assert [e][0] == e;
    FifoShape(s);
  }

  lemma {:induction false} BoundedRun(s: State, es: seq<Event>, cap: int, attempts: nat)
    requires Inv(s) && Legal(s, es) && CapOnly(es, cap) && Bounded(s, cap, attempts)
    ensures Bounded(Run(s, es), cap, attempts + Attempts(es))
    decreases |es|
  {
    if es != [] {
      StepInv(s, es[0]);
      assert CapOnly([es[0]], cap);
      StepBounded(s, es[0], cap, attempts);
      BoundedRun(Step(s, es[0]), es[1..], cap, attempts + if es[0].TrySubmit? then 1 else 0);
    }
  }

  // With try_submit only, the queue never exceeds the cap, the lane's footprint
  // (queued plus in service) never exceeds cap + 1, and the number admitted lies
  // between min(attempts, cap) and cap plus the number popped.
  lemma AdmissionBand(now: int, es: seq<Event>, cap: nat)
    requires Legal(Init(now), es) && CapOnly(es, cap)
    ensures var s := Run(Init(now), es);
            && |s.queue| <= cap
            && |s.queue| + (if s.active then 1 else 0) <= cap + 1
            && Min(Attempts(es), cap) <= |s.cells| <= Min(Attempts(es), cap + |s.popped|)
  {
    InitInv(now);
    BoundedRun(Init(now), es, cap, 0);
    Reachable(now, es);
    FifoShape(Run(Init(now), es));
  }

  // A cap of zero or less admits nothing.
  lemma NonPositiveCapRejectsAll(now: int, es: seq<Event>, cap: int)
    requires Legal(Init(now), es) && CapOnly(es, cap) && cap <= 0
    ensures Run(Init(now), es).cells == []
  {
    NothingAdmitted(Init(now), es, cap);
  }

  lemma {:induction false} NothingAdmitted(s: State, es: seq<Event>, cap: int)
    requires Legal(s, es) && CapOnly(es, cap) && cap <= 0 && s.cells == []
    ensures Run(s, es).cells == []
    decreases |es|
  {
    if es != [] {
      NothingAdmitted(Step(s, es[0]), es[1..], cap);
    }
  }

  // Cancelling takes nothing out of the queue: until the lane pops a cancelled
  // request it still counts against the cap, for any number of cancels.
  lemma {:induction false} CancelledStillCount(s: State, cancels: seq<Event>, q: Request, cap: int)
    requires Legal(s, cancels) && s.stop == NotStopped
    requires forall k :: 0 <= k < |cancels| ==> cancels[k].Cancel? || cancels[k].CancelFulfil?
    ensures var s' := Run(s, cancels);
            && s'.queue == s.queue && s'.stop == NotStopped
            && (|s.queue| >= cap ==> Step(s', TrySubmit(q, cap)) == s')
            && (|s.queue| < cap ==> |Step(s', TrySubmit(q, cap)).queue| == |s.queue| + 1)
    decreases |cancels|
  {
    if cancels != [] {
      CancelledStillCount(Step(s, cancels[0]), cancels[1..], q, cap);
    }
  }

  // ---- A burst over several lanes ----

  // What one lane's run of the burst came to.
  datatype LaneTally = LaneTally(attempts: nat, admitted: nat, pops: nat)

  ghost function TallyOf(es: seq<Event>): LaneTally
    requires Legal(Init(0), es)
  {
    var s := Run(Init(0), es);
    LaneTally(Attempts(es), |s.cells|, |s.popped|)
  }

  function TallyAttempts(t: LaneTally): nat {
    t.attempts
  }

  function TallyAdmitted(t: LaneTally): nat {
    t.admitted
  }

  function TallyPops(t: LaneTally): nat {
    t.pops
  }

  // Tally l is that of a run in which lane l saw the attempts it gets when n attempts
  // go round-robin, each a try_submit with this cap.
  ghost predicate Burst(runs: seq<seq<Event>>, tallies: seq<LaneTally>, n: nat, cap: nat) {
    && |runs| == |tallies|
    && forall l :: 0 <= l < |runs| ==>
         && Legal(Init(0), runs[l]) && CapOnly(runs[l], cap)
         && tallies[l] == TallyOf(runs[l])
         && tallies[l].attempts == RoundRobin.Share(n, |runs|, l)
  }

  ghost predicate InBand(t: LaneTally, cap: nat) {
    Min(t.attempts, cap) <= t.admitted <= Min(t.attempts, cap + t.pops)
  }

  // Band by band, summed over the lanes. Shares that all fill the cap fill every cap;
  // shares within it are all admitted.
  lemma {:induction false} BandsSum(ts: seq<LaneTally>, cap: nat)
    requires forall l :: 0 <= l < |ts| ==> InBand(ts[l], cap)
    ensures SumOf(ts, TallyAdmitted) <= |ts| * cap + SumOf(ts, TallyPops)
    ensures SumOf(ts, TallyAdmitted) <= SumOf(ts, TallyAttempts)
    ensures (forall l :: 0 <= l < |ts| ==> ts[l].attempts >= cap) ==> SumOf(ts, TallyAdmitted) >= |ts| * cap
    ensures (forall l :: 0 <= l < |ts| ==> ts[l].attempts <= cap) ==>
              SumOf(ts, TallyAdmitted) == SumOf(ts, TallyAttempts)
  {
    if ts != [] {
      BandsSum(ts[1..], cap);
      OneMore(|ts|, cap);
      assert InBand(ts[0], cap);
    }
  }

  lemma OneMore(n: nat, x: nat)
    requires n > 0
    ensures n * x == x + (n - 1) * x
  {
  }

  // What the attempts of the first k lanes add up to.
  lemma {:induction false} SharesSum(ts: seq<LaneTally>, share: nat, rem: nat, k: nat)
    requires k <= |ts|
    requires forall l :: 0 <= l < |ts| ==> ts[l].attempts == share + (if l < rem then 1 else 0)
    ensures SumOf(ts[..k], TallyAttempts) == k * share + Min(k, rem)
  {
    if k > 0 {
      SharesSum(ts, share, rem, k - 1);
      assert ts[..k] == ts[..k - 1] + [ts[k - 1]];
      SumConcat(ts[..k - 1], [ts[k - 1]], TallyAttempts);
      OneMore(k, share);
    }
  }

  lemma CapSide(n: nat, lanes: nat, cap: nat)
    requires lanes > 0
    ensures n >= lanes * cap <==> n / lanes >= cap
  {
    RoundRobin.Commute(cap, lanes);
    RoundRobin.DivMod(n, lanes);
    if n / lanes < cap {
      SmallerQuotient(n / lanes, n % lanes, cap, 0, lanes);
    } else {
      MulLe(cap, n / lanes, lanes);
    }
  }

  // Equal shares of n, one more for the first few lanes, each admitted within its band.
  lemma SharesBand(ts: seq<LaneTally>, n: nat, cap: nat, share: nat, rem: nat)
    requires forall l :: 0 <= l < |ts| ==> InBand(ts[l], cap)
    requires forall l :: 0 <= l < |ts| ==> ts[l].attempts == share + (if l < rem then 1 else 0)
    requires |ts| * share + Min(|ts|, rem) == n && (n >= |ts| * cap <==> share >= cap)
    ensures Min(n, |ts| * cap) <= SumOf(ts, TallyAdmitted) <= Min(n, |ts| * cap + SumOf(ts, TallyPops))
  {
    BandsSum(ts, cap);
    SharesSum(ts, share, rem, |ts|);
    assert ts[..|ts|] == ts;
  }

  // Gate G2 of the admission experiment: of n attempts over L lanes, min(n, L*cap) are
  // admitted, and beyond that at most one more for each pop.
  lemma BurstBand(runs: seq<seq<Event>>, tallies: seq<LaneTally>, n: nat, cap: nat)
    requires |runs| > 0 && Burst(runs, tallies, n, cap)
    ensures Min(n, |runs| * cap) <= SumOf(tallies, TallyAdmitted)
    ensures SumOf(tallies, TallyAdmitted) <= Min(n, |runs| * cap + SumOf(tallies, TallyPops))
  {
    forall l | 0 <= l < |runs|
      ensures InBand(tallies[l], cap)
      ensures tallies[l].attempts == n / |runs| + (if l < n % |runs| then 1 else 0)
    {
      AdmissionBand(0, runs[l], cap);
      RoundRobin.ShareExact(n, |runs|, l);
    }
    CapSide(n, |runs|, cap);
    RoundRobin.WholeShares(n, |runs|);
    SharesBand(tallies, n, cap, n / |runs|, n % |runs|);
  }
}
