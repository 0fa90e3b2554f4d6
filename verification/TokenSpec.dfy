// The cancellation token's phases and the effect of each of its critical sections.
// The lane machine and the CancelToken class both use these functions.
module TokenSpec {

  datatype Phase = Queued | Running | StopRequested | Cancelled | Completed

  datatype Token = Token(phase: Phase, cancellable: bool)

  const FRESH := Token(Queued, false)

  // What the critical section of cancel() decides.
  datatype Decision =
    | FulfilNow     // won while queued: this call sets the promise
    | LaneWillStop  // the lane sets the promise at its next chunk boundary
    | TooLate       // cancel() returns false

  function Decide(t: Token): Decision {
    if t.phase == Queued then FulfilNow
    else if t.phase == Running && t.cancellable then LaneWillStop
    else TooLate
  }

  function AfterCancel(t: Token): Token {
    match Decide(t)
    case FulfilNow => t.(phase := Cancelled)
    case LaneWillStop => t.(phase := StopRequested)
    case TooLate => t
  }

  predicate Begins(t: Token) {
    t.phase != Cancelled
  }

  function AfterBegin(t: Token, chunks: int): Token {
    if Begins(t) then Token(Running, chunks > 1) else t
  }

  predicate StopsHere(t: Token) {
    t.phase == StopRequested
  }

  function AfterBoundary(t: Token, nextIsFinal: bool): Token {
    if StopsHere(t) then t.(phase := Cancelled)
    else if nextIsFinal then t.(cancellable := false)
    else t
  }

  function AfterComplete(t: Token): Token {
    if t.phase == Running then t.(phase := Completed) else t
  }

  // is_cancelled(): the outcome is settled even if the row is not there yet.
  predicate Settled(t: Token) {
    t.phase == Cancelled || t.phase == StopRequested
  }
}
