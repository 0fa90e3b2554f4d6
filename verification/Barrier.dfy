// The one-shot gate of the barrier witness: N expected participants, a gate
// opened by the compare-and-swap winner, a coordinator watchdog, and three forced
// failure shapes. Every atomic access is one step of some thread.
module Barrier {
  import opened Basics

  datatype Case = Success | FailSkip | FailThrow | LaunchFewer
  datatype Opener = Nobody | LastArriver | Watchdog

  datatype Child =
    | Launched
    | Opening      // was the last to arrive, about to compare-and-swap
    | Storing      // won the swap, about to store the opener
    | Setting      // about to set the gate promise
    | Waiting      // in gate.get()
    | Resumed      // gate.get() returned
    | Released
    | Skipped
    | Threw

  datatype Coordinator =
    | Polling      // about to read the arrival counter
    | AskClock     // fewer than N arrived, about to compare the clock with the deadline
    | Rescue       // deadline hit, about to compare-and-swap
    | CStoring
    | CSetting
    | Joining
    | Done

  // `polls` bounds the cooperative sleeps that fit before the deadline.
  datatype State = State(kase: Case, n: nat, kids: seq<Child>, arrived: nat, released: nat,
                         gateOpen: bool, opener: Opener, gateSets: nat, coord: Coordinator, polls: nat)

  // What main() plans: failure shapes that launch everyone, or fewer than N.
  predicate Planned(kase: Case, n: nat, launched: nat) {
    n >= 1 && if kase == LaunchFewer then launched < n else launched == n
  }

  function Init(kase: Case, n: nat, launched: nat, polls: nat): State {
    State(kase, n, seq(launched, _ => Launched), 0, 0, false, Nobody, 0, Polling, polls)
  }

  datatype Event = Kid(i: nat) | Coord(expired: bool)

  predicate KidDone(c: Child) {
    c == Released || c == Skipped || c == Threw
  }

  ghost predicate Enabled(s: State, e: Event) {
    match e
    case Kid(i) =>
      i < |s.kids| && !KidDone(s.kids[i]) && (s.kids[i] == Waiting ==> s.gateSets > 0)
    case Coord(expired) =>
      match s.coord
      case Done => false
      case Joining => forall i :: 0 <= i < |s.kids| ==> KidDone(s.kids[i])
      case AskClock => expired || s.polls > 0
      case _ => true
  }

  function KidStep(s: State, i: nat): State
    requires i < |s.kids|
  {
    match s.kids[i]
    case Launched =>
      if s.kase == FailSkip && i == 0 then s.(kids := s.kids[i := Skipped])
      else if s.kase == FailThrow && i == 0 then s.(kids := s.kids[i := Threw])
      else s.(arrived := s.arrived + 1, kids := s.kids[i := if s.arrived + 1 == s.n then Opening else Waiting])
    case Opening => s.(gateOpen := true, kids := s.kids[i := if s.gateOpen then Waiting else Storing])
    case Storing => s.(opener := LastArriver, kids := s.kids[i := Setting])
    case Setting => s.(gateSets := s.gateSets + 1, kids := s.kids[i := Waiting])
    case Waiting => s.(kids := s.kids[i := Resumed])
    case Resumed => s.(released := s.released + 1, kids := s.kids[i := Released])
    case _ => s
  }

  function CoordStep(s: State, expired: bool): State {
    match s.coord
    case Polling => s.(coord := if s.arrived < s.n then AskClock else Joining)
    case AskClock => if expired || s.polls == 0 then s.(coord := Rescue) else s.(coord := Polling, polls := s.polls - 1)
    case Rescue => s.(gateOpen := true, coord := if s.gateOpen then Joining else CStoring)
    case CStoring => s.(opener := Watchdog, coord := CSetting)
    case CSetting => s.(gateSets := s.gateSets + 1, coord := Joining)
    case Joining => s.(coord := Done)
    case Done => s
  }

  function Step(s: State, e: Event): State
    requires e.Kid? ==> e.i < |s.kids|
  {
    match e
    case Kid(i) => KidStep(s, i)
    case Coord(expired) => CoordStep(s, expired)
  }

  ghost predicate Legal(s: State, es: seq<Event>)
    decreases |es|
  {
    es == [] || (Enabled(s, es[0]) && Legal(Step(s, es[0]), es[1..]))
  }

  ghost function Run(s: State, es: seq<Event>): State
    requires Legal(s, es)
    decreases |es|
  {
    if es == [] then s else Run(Step(s, es[0]), es[1..])
  }

  // ---- Invariant ----

  function Arrived(c: Child): nat {
    if c == Launched || c == Skipped || c == Threw then 0 else 1
  }

  function IsReleased(c: Child): nat {
    if c == Released then 1 else 0
  }

  function IsStoring(c: Child): nat {
    if c == Storing then 1 else 0
  }

  function IsSetting(c: Child): nat {
    if c == Setting then 1 else 0
  }

  function IsOpening(c: Child): nat {
    if c == Opening then 1 else 0
  }

  function Flag(b: bool): nat {
    if b then 1 else 0
  }

  // Only child 0 of a failure case may stay away, and there it must.
  predicate KidOk(s: State, i: nat)
    requires i < |s.kids|
  {
    var c := s.kids[i];
    && (if i == 0 && s.kase == FailSkip then c == Launched || c == Skipped
        else if i == 0 && s.kase == FailThrow then c == Launched || c == Threw
        else c != Skipped && c != Threw)
    && (c == Resumed || c == Released ==> s.gateSets == 1)
  }

  function Absent(kase: Case): nat {
    if kase == FailSkip || kase == FailThrow then 1 else 0
  }

  ghost predicate Inv(s: State) {
    && Planned(s.kase, s.n, |s.kids|)
    && (forall i :: 0 <= i < |s.kids| ==> KidOk(s, i))
    && GateOk(s)
    && (s.coord == Done ==> forall i :: 0 <= i < |s.kids| ==> KidDone(s.kids[i]))
  }

  datatype Tally = Tally(arrived: nat, released: nat, storing: nat, setting: nat, opening: nat)

  // How many children are past, or in, each stage.
  ghost function TallyOf(kids: seq<Child>): Tally {
    Tally(SumOf(kids, Arrived), SumOf(kids, IsReleased),
          SumOf(kids, IsStoring), SumOf(kids, IsSetting), SumOf(kids, IsOpening))
  }

  ghost predicate GateOk(s: State) {
    GateFits(s, TallyOf(s.kids))
  }

  predicate GateFits(s: State, t: Tally) {
    && s.arrived == t.arrived
    && s.released == t.released
    // whoever won the swap is storing, setting, or has set the gate
    && t.storing + t.setting + Flag(s.coord == CStoring) + Flag(s.coord == CSetting) + s.gateSets == Flag(s.gateOpen)
    && t.setting + Flag(s.coord == CSetting) + s.gateSets == Flag(s.opener != Nobody)
    && (s.coord == CSetting ==> s.opener == Watchdog)
    && (t.setting > 0 ==> s.opener == LastArriver)
    // a child opens only as the N-th arrival, and then somebody has opened or is about to
    && (t.opening + t.storing > 0 || s.opener == LastArriver ==> s.arrived == s.n)
    && (s.arrived == s.n ==> s.gateOpen || t.opening > 0)
    && (s.coord == Joining || s.coord == Done ==> s.arrived >= s.n || s.gateOpen)
  }

  lemma {:induction false} SumZero(kids: seq<Child>, f: Child -> nat)
    requires forall k :: 0 <= k < |kids| ==> f(kids[k]) == 0
    ensures SumOf(kids, f) == 0
  {
    if kids != [] {
      SumZero(kids[1..], f);
    }
  }

  lemma InitInv(kase: Case, n: nat, launched: nat, polls: nat)
    requires Planned(kase, n, launched)
    ensures Inv(Init(kase, n, launched, polls))
  {
    var kids := Init(kase, n, launched, polls).kids;
    SumZero(kids, Arrived);
    SumZero(kids, IsReleased);
    SumZero(kids, IsStoring);
    SumZero(kids, IsSetting);
    SumZero(kids, IsOpening);
  }

  lemma {:induction false} SumSome(kids: seq<Child>, f: Child -> nat) returns (i: nat)
    requires SumOf(kids, f) > 0
    ensures i < |kids| && f(kids[i]) > 0
  {
    if f(kids[0]) > 0 {
      i := 0;
    } else {
      i := SumSome(kids[1..], f);
      i := i + 1;
    }
  }

  // t' is t with one child moved from stage c to stage c'.
  predicate Moved(t: Tally, t': Tally, c: Child, c': Child) {
    && t'.arrived + Arrived(c) == t.arrived + Arrived(c')
    && t'.released + IsReleased(c) == t.released + IsReleased(c')
    && t'.storing + IsStoring(c) == t.storing + IsStoring(c')
    && t'.setting + IsSetting(c) == t.setting + IsSetting(c')
    && t'.opening + IsOpening(c) == t.opening + IsOpening(c')
  }

  lemma TallyMoves(kids: seq<Child>, i: nat, c: Child)
    requires i < |kids|
    ensures Moved(TallyOf(kids), TallyOf(kids[i := c]), kids[i], c)
  {
    SumUpdate(kids, i, c, Arrived);
    SumUpdate(kids, i, c, IsReleased);
    SumUpdate(kids, i, c, IsStoring);
    SumUpdate(kids, i, c, IsSetting);
    SumUpdate(kids, i, c, IsOpening);
  }

  lemma KidFits(s: State, i: nat, t: Tally, t': Tally)
    requires i < |s.kids| && !KidDone(s.kids[i])
    requires GateFits(s, t) && Moved(t, t', s.kids[i], KidStep(s, i).kids[i]) && t'.arrived <= s.n
    requires IsStoring(s.kids[i]) <= t.storing && IsSetting(s.kids[i]) <= t.setting && IsOpening(s.kids[i]) <= t.opening
    ensures GateFits(KidStep(s, i), t')
  {
  }

  // A count is at least the count of any one child.
  lemma {:induction false} SumAtLeast(kids: seq<Child>, i: nat, f: Child -> nat)
    requires i < |kids|
    ensures SumOf(kids, f) >= f(kids[i])
  {
    if i > 0 {
      SumAtLeast(kids[1..], i - 1, f);
    }
  }

  // Arrivals never exceed N, nor reach it in a failure case.
  lemma ArrivalBound(s: State)
    requires Planned(s.kase, s.n, |s.kids|)
    requires forall i :: 0 <= i < |s.kids| ==> KidOk(s, i)
    ensures SumOf(s.kids, Arrived) <= |s.kids| - Absent(s.kase)
    ensures s.kase != Success ==> SumOf(s.kids, Arrived) < s.n
  {
    if s.kase == FailSkip || s.kase == FailThrow {
      assert KidOk(s, 0);
      SumBound(s.kids[1..], Arrived, 1);
    } else {
      SumBound(s.kids, Arrived, 1);
    }
  }

  lemma KidKeepsOthers(s: State, i: nat)
    requires Inv(s) && Enabled(s, Kid(i))
    ensures forall j :: 0 <= j < |s.kids| ==> KidOk(KidStep(s, i), j)
  {
    var s' := KidStep(s, i);
    assert KidOk(s, i);
    SumAtLeast(s.kids, i, IsSetting);
    forall j | 0 <= j < |s'.kids|
      ensures KidOk(s', j)
    {
      assert KidOk(s, j);
    }
  }

  lemma KidKeepsGate(s: State, i: nat)
    requires Inv(s) && Enabled(s, Kid(i))
    requires SumOf(KidStep(s, i).kids, Arrived) <= s.n
    ensures GateOk(KidStep(s, i))
  {
    var kids := KidStep(s, i).kids;
    assert kids == s.kids[i := kids[i]];
    TallyMoves(s.kids, i, kids[i]);
    SumAtLeast(s.kids, i, IsStoring);
    SumAtLeast(s.kids, i, IsSetting);
    SumAtLeast(s.kids, i, IsOpening);
    KidFits(s, i, TallyOf(s.kids), TallyOf(kids));
  }

  lemma KidKeeps(s: State, i: nat)
    requires Inv(s) && Enabled(s, Kid(i))
    ensures Inv(KidStep(s, i))
  {
    KidKeepsOthers(s, i);
    ArrivalBound(KidStep(s, i));
    KidKeepsGate(s, i);
  }

  lemma CoordKeeps(s: State, expired: bool)
    requires Inv(s) && Enabled(s, Coord(expired))
    ensures Inv(CoordStep(s, expired))
  {
    var s' := CoordStep(s, expired);
    forall j | 0 <= j < |s'.kids|
      ensures KidOk(s', j)
    {
      assert KidOk(s, j);
    }
  }

  lemma StepInv(s: State, e: Event)
    requires Inv(s) && Enabled(s, e)
    ensures Inv(Step(s, e))
    ensures Step(s, e).kase == s.kase && Step(s, e).n == s.n && |Step(s, e).kids| == |s.kids|
  {
    match e
    case Kid(i) => KidKeeps(s, i);
    case Coord(x) => CoordKeeps(s, x);
  }

  lemma {:induction false} RunInv(s: State, es: seq<Event>)
    requires Inv(s) && Legal(s, es)
    ensures Inv(Run(s, es))
    ensures Run(s, es).kase == s.kase && Run(s, es).n == s.n && |Run(s, es).kids| == |s.kids|
    decreases |es|
  {
    if es != [] {
      StepInv(s, es[0]);
      RunInv(Step(s, es[0]), es[1..]);
    }
  }

  // ---- Safety in every schedule ----

  lemma GateIsSafe(kase: Case, n: nat, launched: nat, polls: nat, es: seq<Event>)
    requires Planned(kase, n, launched) && Legal(Init(kase, n, launched, polls), es)
    ensures var s := Run(Init(kase, n, launched, polls), es);
            && s.gateSets <= 1
            && (s.released > 0 ==> s.gateSets == 1)
            && (forall i :: 0 <= i < |s.kids| && s.kids[i] == Resumed ==> s.gateSets == 1)
            && (s.opener == LastArriver ==> s.arrived == n)
            && (kase != Success ==> s.arrived < n && s.opener != LastArriver)
  {
    InitInv(kase, n, launched, polls);
    RunInv(Init(kase, n, launched, polls), es);
    var s := Run(Init(kase, n, launched, polls), es);
    ArrivalBound(s);
    forall i | 0 <= i < |s.kids| && s.kids[i] == Resumed
      ensures s.gateSets == 1
    {
      assert KidOk(s, i);
    }
    if s.released > 0 {
      var i := SumSome(s.kids, IsReleased);
      assert KidOk(s, i);
    }
  }

  // ---- The reported signature ----

  datatype RoundResult = RoundResult(kase: Case, expected: nat, launched: nat, arrived: nat, released: nat,
                                     gateOpened: bool, opener: Opener, joined: nat, childErrors: nat)

  function HasThrown(c: Child): nat {
    if c == Threw then 1 else 0
  }

  // when_all joined every launched child; each get() that rethrew was counted.
  ghost function Report(s: State): RoundResult {
    RoundResult(s.kase, s.n, |s.kids|, s.arrived, s.released, s.gateOpen, s.opener, |s.kids|, SumOf(s.kids, HasThrown))
  }

  predicate BarrierSuccess(r: RoundResult) {
    && r.arrived == r.expected && r.released == r.expected && r.opener == LastArriver
    && r.childErrors == 0 && r.joined == r.launched
  }

  predicate AsExpected(r: RoundResult) {
    match r.kase
    case Success => BarrierSuccess(r)
    case FailSkip =>
      && r.arrived == r.expected - 1 && r.released == r.expected - 1 && r.opener == Watchdog
      && r.childErrors == 0 && !BarrierSuccess(r) && r.joined == r.launched
    case FailThrow =>
      && r.arrived == r.expected - 1 && r.released == r.expected - 1 && r.opener == Watchdog
      && r.childErrors == 1 && !BarrierSuccess(r) && r.joined == r.launched
    case LaunchFewer =>
      && r.arrived == r.launched && r.released == r.launched && r.launched < r.expected && r.opener == Watchdog
      && r.childErrors == 0 && !BarrierSuccess(r) && r.joined == r.launched
  }

  lemma FinalCounts(s: State)
    requires Inv(s) && s.coord == Done
    ensures s.arrived == s.released == |s.kids| - Absent(s.kase)
    ensures SumOf(s.kids, HasThrown) == Flag(s.kase == FailThrow)
    ensures s.gateOpen && s.opener != Nobody
  {
    assert forall i :: 0 <= i < |s.kids| ==> KidOk(s, i) && KidDone(s.kids[i]);
    SumZero(s.kids, IsStoring);
    SumZero(s.kids, IsSetting);
    SumZero(s.kids, IsOpening);
    var rest := if s.kase == FailSkip || s.kase == FailThrow then s.kids[1..] else s.kids;
    forall k | 0 <= k < |rest|
      ensures rest[k] == Released
    {
      if s.kase == FailSkip || s.kase == FailThrow {
        assert KidOk(s, k + 1);
      } else {
        assert KidOk(s, k);
      }
    }
    SumAll(rest, Arrived);
    SumAll(rest, IsReleased);
    SumZero(rest, HasThrown);
  }

  // When the round ends: the failure cases always match their signature, and the
  // success case matches exactly when the watchdog did not win the swap.
  lemma SignatureHolds(kase: Case, n: nat, launched: nat, polls: nat, es: seq<Event>)
    requires Planned(kase, n, launched) && Legal(Init(kase, n, launched, polls), es)
    requires Run(Init(kase, n, launched, polls), es).coord == Done
    ensures var s := Run(Init(kase, n, launched, polls), es);
            && s.gateSets == 1 && Report(s).joined == launched
            && (kase != Success ==> AsExpected(Report(s)))
            && (kase == Success ==> (AsExpected(Report(s)) <==> s.opener != Watchdog))
            && s.arrived == s.released
            && s.arrived == (if kase == LaunchFewer then launched else if kase == Success then n else n - 1)
            && (kase != Success ==> s.opener == Watchdog) && s.opener != Nobody
            && Report(s).childErrors == (if kase == FailThrow then 1 else 0)
  {
    InitInv(kase, n, launched, polls);
    RunInv(Init(kase, n, launched, polls), es);
    var s := Run(Init(kase, n, launched, polls), es);
    FinalCounts(s);
    SumZero(s.kids, IsStoring);
    SumZero(s.kids, IsSetting);
    ArrivalBound(s);
  }

  // ---- Every schedule ends ----

  function KidWeight(c: Child): nat {
    match c
    case Launched => 6
    case Opening => 5
    case Storing => 4
    case Setting => 3
    case Waiting => 2
    case Resumed => 1
    case _ => 0
  }

  function CoordWeight(s: State): nat {
    match s.coord
    case Polling => 2 * s.polls + 6
    case AskClock => 2 * s.polls + 5
    case Rescue => 4
    case CStoring => 3
    case CSetting => 2
    case Joining => 1
    case Done => 0
  }

  ghost function Left(s: State): nat {
    SumOf(s.kids, KidWeight) + CoordWeight(s)
  }

  lemma KidDecreases(s: State, i: nat)
    requires i < |s.kids| && !KidDone(s.kids[i])
    ensures var kids := KidStep(s, i).kids;
            kids == s.kids[i := kids[i]] && KidWeight(kids[i]) < KidWeight(s.kids[i])
    ensures CoordWeight(KidStep(s, i)) == CoordWeight(s)
  {
  }

  lemma StepDecreases(s: State, e: Event)
    requires Enabled(s, e)
    ensures Left(Step(s, e)) < Left(s)
  {
    match e
    case Kid(i) =>
      KidDecreases(s, i);
      SumUpdate(s.kids, i, KidStep(s, i).kids[i], KidWeight);
    case Coord(x) =>
      assert CoordStep(s, x).kids == s.kids;
      assert CoordWeight(CoordStep(s, x)) < CoordWeight(s);
  }

  lemma {:induction false} ScheduleBound(s: State, es: seq<Event>)
    requires Legal(s, es)
    ensures |es| + Left(Run(s, es)) <= Left(s)
    decreases |es|
  {
    if es != [] {
      StepDecreases(s, es[0]);
      ScheduleBound(Step(s, es[0]), es[1..]);
    }
  }

  // Nobody is left behind: until the round is done some thread can move.
  lemma NeverStuck(s: State) returns (e: Event)
    requires Inv(s) && s.coord != Done
    ensures Enabled(s, e)
  {
    if s.coord != Joining || Enabled(s, Coord(true)) {
      e := Coord(true);
    } else {
      var i :| 0 <= i < |s.kids| && !KidDone(s.kids[i]);
      if s.kids[i] != Waiting || s.gateSets > 0 {
        e := Kid(i);
      } else if !s.gateOpen {
        ArrivalBound(s);
        var k := SumSome(s.kids, IsOpening);
        e := Kid(k);
      } else if SumOf(s.kids, IsStoring) > 0 {
        var k := SumSome(s.kids, IsStoring);
        e := Kid(k);
      } else {
        var k := SumSome(s.kids, IsSetting);
        e := Kid(k);
      }
    }
  }

  // Every schedule has at most 6 * launched + 2 * polls + 6 steps, and one that
  // cannot be extended has joined every launched child.
  lemma EveryRoundEnds(kase: Case, n: nat, launched: nat, polls: nat, es: seq<Event>)
    requires Planned(kase, n, launched) && Legal(Init(kase, n, launched, polls), es)
    ensures |es| <= 6 * launched + 2 * polls + 6
    ensures var s := Run(Init(kase, n, launched, polls), es);
            (forall e :: !Enabled(s, e)) ==> s.coord == Done
  {
    var s0 := Init(kase, n, launched, polls);
    InitInv(kase, n, launched, polls);
    RunInv(s0, es);
    ScheduleBound(s0, es);
    SumBound(s0.kids, KidWeight, 6);
    if Run(s0, es).coord != Done {
      var e := NeverStuck(Run(s0, es));
    }
  }

  // ---- When the success case succeeds ----

  // The coordinator takes the swap: at the deadline the gate was still closed.
  predicate Swaps(s: State, e: Event) {
    e.Coord? && s.coord == Rescue && !s.gateOpen
  }

  ghost predicate WatchdogSwaps(s: State, es: seq<Event>)
    requires Legal(s, es)
    decreases |es|
  {
    es != [] && (Swaps(s, es[0]) || WatchdogSwaps(Step(s, es[0]), es[1..]))
  }

  predicate WatchdogWon(s: State) {
    s.opener == Watchdog || s.coord == CStoring || s.coord == CSetting
  }

  lemma StepWon(s: State, e: Event)
    requires Inv(s) && Enabled(s, e)
    ensures WatchdogWon(Step(s, e)) <==> WatchdogWon(s) || Swaps(s, e)
  {
    if e.Kid? {
      SumAtLeast(s.kids, e.i, IsStoring);
    }
  }

  lemma {:induction false} RunWon(s: State, es: seq<Event>)
    requires Inv(s) && Legal(s, es)
    ensures WatchdogWon(Run(s, es)) <==> WatchdogWon(s) || WatchdogSwaps(s, es)
    decreases |es|
  {
    if es != [] {
      StepInv(s, es[0]);
      StepWon(s, es[0]);
      RunWon(Step(s, es[0]), es[1..]);
    }
  }

  // A finished success round is a success if and only if the coordinator never took
  // the swap: whenever it came to rescue, the gate was already open.
  lemma SuccessIff(n: nat, polls: nat, es: seq<Event>)
    requires n >= 1 && Legal(Init(Success, n, n, polls), es)
    requires Run(Init(Success, n, n, polls), es).coord == Done
    ensures AsExpected(Report(Run(Init(Success, n, n, polls), es))) <==> !WatchdogSwaps(Init(Success, n, n, polls), es)
  {
    InitInv(Success, n, n, polls);
    RunWon(Init(Success, n, n, polls), es);
    SignatureHolds(Success, n, n, polls, es);
  }

  // No look at the clock found the deadline passed.
  ghost predicate DeadlineNotHit(es: seq<Event>) {
    forall k :: 0 <= k < |es| ==> es[k] != Coord(true)
  }

  lemma {:induction false} NoSwapInTime(s: State, es: seq<Event>)
    requires Legal(s, es) && DeadlineNotHit(es) && s.coord != Rescue
    ensures !WatchdogSwaps(s, es)
    decreases |es|
  {
    if es != [] {
      NoSwapInTime(Step(s, es[0]), es[1..]);
    }
  }

  // ---- A poll that sees all N arrivals ends the watchdog loop ----

  lemma {:induction false} Split(s: State, es: seq<Event>, k: nat)
    requires Legal(s, es) && k <= |es|
    ensures Legal(s, es[..k]) && Legal(Run(s, es[..k]), es[k..])
    ensures Run(Run(s, es[..k]), es[k..]) == Run(s, es)
    ensures WatchdogSwaps(s, es) <==> WatchdogSwaps(s, es[..k]) || WatchdogSwaps(Run(s, es[..k]), es[k..])
    decreases |es|
  {
    if k == 0 {
      assert es[..0] == [] && es[0..] == es;
    } else {
      assert es[..k][1..] == es[1..][..k - 1] && es[k..] == es[1..][k - 1..];
      Split(Step(s, es[0]), es[1..], k - 1);
    }
  }

  predicate Watching(c: Coordinator) {
    c == Polling || c == AskClock
  }

  // The coordinator never comes back to polling.
  lemma {:induction false} NeverPollsAgain(s: State, es: seq<Event>)
    requires Legal(s, es) && !Watching(s.coord)
    ensures !Watching(Run(s, es).coord)
    decreases |es|
  {
    if es != [] {
      NeverPollsAgain(Step(s, es[0]), es[1..]);
    }
  }

  lemma {:induction false} NoSwapWhilePolling(s: State, es: seq<Event>)
    requires Legal(s, es) && Watching(s.coord) && Watching(Run(s, es).coord)
    ensures !WatchdogSwaps(s, es)
    decreases |es|
  {
    if es != [] {
      var s1 := Step(s, es[0]);
      if Watching(s1.coord) {
        NoSwapWhilePolling(s1, es[1..]);
      } else {
        NeverPollsAgain(s1, es[1..]);
      }
    }
  }

  lemma {:induction false} StaysJoined(s: State, es: seq<Event>)
    requires Legal(s, es) && (s.coord == Joining || s.coord == Done)
    ensures Run(s, es).coord == Joining || Run(s, es).coord == Done
    ensures !WatchdogSwaps(s, es)
    decreases |es|
  {
    if es != [] {
      StaysJoined(Step(s, es[0]), es[1..]);
    }
  }

  // When the coordinator reads the counter and finds all N arrived, it goes on to join
  // the children: it never takes the swap, and a finished round is a success.
  lemma PollSeesAll(n: nat, polls: nat, es: seq<Event>, k: nat)
    requires n >= 1 && Legal(Init(Success, n, n, polls), es) && k < |es| && es[k].Coord?
    requires Legal(Init(Success, n, n, polls), es[..k])
    requires var s := Run(Init(Success, n, n, polls), es[..k]); s.coord == Polling && s.arrived == n
    ensures !WatchdogSwaps(Init(Success, n, n, polls), es)
    ensures var s := Run(Init(Success, n, n, polls), es);
            (s.coord == Joining || s.coord == Done) && (s.coord == Done ==> AsExpected(Report(s)))
  {
    var s0 := Init(Success, n, n, polls);
    Split(s0, es, k);
    NoSwapWhilePolling(s0, es[..k]);
    InitInv(Success, n, n, polls);
    RunInv(s0, es[..k]);
    var s := Run(s0, es[..k]);
    assert es[k..][0] == es[k];
    StaysJoined(Step(s, es[k]), es[k..][1..]);
    if Run(s0, es).coord == Done {
      SuccessIff(n, polls, es);
    }
  }

  // A round planned as a success is one, in every schedule that ends in time.
  lemma InTimeMeansSuccess(n: nat, polls: nat, es: seq<Event>)
    requires n >= 1 && Legal(Init(Success, n, n, polls), es) && DeadlineNotHit(es)
    requires Run(Init(Success, n, n, polls), es).coord == Done
    ensures BarrierSuccess(Report(Run(Init(Success, n, n, polls), es)))
  {
    InitInv(Success, n, n, polls);
    RunInv(Init(Success, n, n, polls), es);
    NoSwapInTime(Init(Success, n, n, polls), es);
    SuccessIff(n, polls, es);
  }

  lemma {:induction false} Append(s: State, es: seq<Event>, e: Event)
    requires Legal(s, es) && Enabled(Run(s, es), e)
    ensures Legal(s, es + [e]) && Run(s, es + [e]) == Step(Run(s, es), e)
    decreases |es|
  {
    if es == [] {
      assert Run(Step(s, e), []) == Step(s, e);
      assert (es + [e])[1..] == [];
    } else {
      assert (es + [e])[1..] == es[1..] + [e];
      Append(Step(s, es[0]), es[1..], e);
    }
  }

  // The first k children have arrived; the last of all N is about to open the gate.
  function ArrivedState(n: nat, polls: nat, k: nat): State {
    Init(Success, n, n, polls).(
      arrived := k,
      kids := seq(n, i requires 0 <= i => if i >= k then Launched else if i + 1 == n then Opening else Waiting))
  }

  lemma {:induction false} AllArrive(n: nat, polls: nat, k: nat) returns (es: seq<Event>)
    requires k <= n
    ensures Legal(Init(Success, n, n, polls), es) && DeadlineNotHit(es)
    ensures Run(Init(Success, n, n, polls), es) == ArrivedState(n, polls, k)
  {
    es := [];
    if k == 0 {
      assert Init(Success, n, n, polls).kids == ArrivedState(n, polls, 0).kids;
    } else {
      es := AllArrive(n, polls, k - 1);
      var before := ArrivedState(n, polls, k - 1);
      assert KidStep(before, k - 1).kids == ArrivedState(n, polls, k).kids;
      Append(Init(Success, n, n, polls), es, Kid(k - 1));
      es := es + [Kid(k - 1)];
    }
  }

  lemma {:induction false} FinishJoining(s: State) returns (es: seq<Event>)
    requires Inv(s) && (s.coord == Joining || s.coord == Done)
    ensures Legal(s, es) && DeadlineNotHit(es) && Run(s, es).coord == Done
    decreases Left(s)
  {
    es := [];
    if s.coord != Done {
      var e := NeverStuck(s);
      e := if e.Coord? then Coord(false) else e;
      StepInv(s, e);
      StepDecreases(s, e);
      var rest := FinishJoining(Step(s, e));
      es := [e] + rest;
      assert es[1..] == rest;
    }
  }

  // In time is possible for any N: a success round that ends before the deadline.
  lemma CanEndInTime(n: nat, polls: nat) returns (es: seq<Event>)
    requires n >= 1
    ensures Legal(Init(Success, n, n, polls), es) && DeadlineNotHit(es)
    ensures var s := Run(Init(Success, n, n, polls), es); s.coord == Done && AsExpected(Report(s))
  {
    var s0 := Init(Success, n, n, polls);
    es := AllArrive(n, polls, n);
    Append(s0, es, Coord(false));
    es := es + [Coord(false)];
    InitInv(Success, n, n, polls);
    RunInv(s0, es);
    var rest := FinishJoining(Run(s0, es));
    Concat(s0, es, rest);
    es := es + rest;
    NoSwapInTime(s0, es);
    SuccessIff(n, polls, es);
  }

  lemma {:induction false} Concat(s: State, a: seq<Event>, b: seq<Event>)
    requires Legal(s, a) && Legal(Run(s, a), b)
    ensures Legal(s, a + b) && Run(s, a + b) == Run(Run(s, a), b)
    decreases |a|
  {
    if a == [] {
      assert a + b == b;
    } else {
      assert (a + b)[1..] == a[1..] + b;
      Concat(Step(s, a[0]), a[1..], b);
    }
  }

  lemma {:induction false} FinishRescued(s: State) returns (es: seq<Event>)
    requires Inv(s) && s.opener == Watchdog
    ensures Legal(s, es) && Run(s, es).coord == Done && Run(s, es).opener == Watchdog
    decreases Left(s)
  {
    if s.coord == Done {
      es := [];
    } else {
      var e := NeverStuck(s);
      StepInv(s, e);
      StepDecreases(s, e);
      if e.Kid? {
        SumAtLeast(s.kids, e.i, IsStoring);
      }
      var rest := FinishRescued(Step(s, e));
      es := [e] + rest;
      assert es[1..] == rest;
    }
  }

  // Nothing in the code keeps the watchdog from winning when the deadline comes
  // first: then the success round reports a failure although every child is released.
  lemma WatchdogCanWin(n: nat, polls: nat) returns (es: seq<Event>)
    requires n >= 1
    ensures Legal(Init(Success, n, n, polls), es)
    ensures var s := Run(Init(Success, n, n, polls), es);
            s.coord == Done && s.released == n && !AsExpected(Report(s))
  {
    var s0 := Init(Success, n, n, polls);
    InitInv(Success, n, n, polls);
    var e := Coord(true);
    var s1, s2, s3, s4 := s0.(coord := AskClock), s0.(coord := Rescue), s0.(coord := CStoring, gateOpen := true),
                          s0.(coord := CSetting, gateOpen := true, opener := Watchdog);
    StepInv(s0, e);
    StepInv(s1, e);
    StepInv(s2, e);
    StepInv(s3, e);
    var rest := FinishRescued(s4);
    Prepend(s3, e, rest);
    Prepend(s2, e, [e] + rest);
    Prepend(s1, e, [e] + ([e] + rest));
    Prepend(s0, e, [e] + ([e] + ([e] + rest)));
    es := [e] + ([e] + ([e] + ([e] + rest)));
    SignatureHolds(Success, n, n, polls, es);
    RunInv(s0, es);
    FinalCounts(Run(s0, es));
  }

  lemma Prepend(s: State, e: Event, es: seq<Event>)
    requires Enabled(s, e) && Legal(Step(s, e), es)
    ensures Legal(s, [e] + es) && Run(s, [e] + es) == Run(Step(s, e), es)
  {
    assert ([e] + es)[1..] == es;
  }
}
