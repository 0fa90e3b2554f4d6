// The chunked synthetic service: n equal active steps with n - 1 parked gaps
// between them. The lane's loop and the Ray actor's loop are both proved to emit
// the schedule defined here.
module ChunkSchedule {
  import opened Basics

  datatype Slice = Active(ms: real) | Gap(ms: real)

  // A non-positive duration emits nothing.
  function ActiveSlice(ms: real): seq<Slice> {
    if ms > 0.0 then [Active(ms)] else []
  }

  function GapSlice(ms: real): seq<Slice> {
    if ms > 0.0 then [Gap(ms)] else []
  }

  // What has been emitted when the loop reaches the boundary before chunk c.
  function Emitted(c: nat, n: nat, perChunk: real, delay: real): seq<Slice> {
    if c == 0 then []
    else Emitted(c - 1, n, perChunk, delay) + ActiveSlice(perChunk) + (if c < n then GapSlice(delay) else [])
  }

  function ChunkCount(chunks: int): (n: nat)
    ensures n >= 1
  {
    if chunks < 1 then 1 else chunks
  }

  function PerChunk(serviceMs: real, chunks: int): real {
    serviceMs / ChunkCount(chunks) as real
  }

  // The uninterrupted schedule of a request.
  function FullSchedule(serviceMs: real, chunks: int, delay: real): seq<Slice> {
    Emitted(ChunkCount(chunks), ChunkCount(chunks), PerChunk(serviceMs, chunks), delay)
  }

  function Total(slices: seq<Slice>): real {
    if slices == [] then 0.0 else slices[0].ms + Total(slices[1..])
  }

  function Actives(slices: seq<Slice>): nat {
    if slices == [] then 0 else (if slices[0].Active? then 1 else 0) + Actives(slices[1..])
  }

  function Gaps(slices: seq<Slice>): nat {
    if slices == [] then 0 else (if slices[0].Gap? then 1 else 0) + Gaps(slices[1..])
  }

  lemma {:induction false} Joined(a: seq<Slice>, b: seq<Slice>)
    ensures Total(a + b) == Total(a) + Total(b)
    ensures Actives(a + b) == Actives(a) + Actives(b)
    ensures Gaps(a + b) == Gaps(a) + Gaps(b)
  {
    if a == [] {
      assert a + b == b;
    } else {
      assert (a + b)[1..] == a[1..] + b;
      Joined(a[1..], b);
    }
  }

  function Pos(x: real): real {
    if x > 0.0 then x else 0.0
  }

  lemma OneSlice(ms: real)
    ensures Total(ActiveSlice(ms)) == Pos(ms) && Total(GapSlice(ms)) == Pos(ms)
    ensures Actives(ActiveSlice(ms)) == (if ms > 0.0 then 1 else 0) && Gaps(ActiveSlice(ms)) == 0
    ensures Gaps(GapSlice(ms)) == (if ms > 0.0 then 1 else 0) && Actives(GapSlice(ms)) == 0
  {
  }

  // Gaps over when c of n chunks are done: there is none after the last chunk.
  function GapsDone(c: nat, n: nat): nat {
    if c < n then c else if n == 0 then 0 else n - 1
  }

  // At the boundary before chunk c exactly c active steps and c gaps are over.
  lemma {:induction false} AtBoundary(c: nat, n: nat, perChunk: real, delay: real)
    requires c <= n
    ensures var e := Emitted(c, n, perChunk, delay);
            && Actives(e) == (if perChunk > 0.0 then c else 0)
            && Gaps(e) == (if delay > 0.0 then GapsDone(c, n) else 0)
  {
    if c > 0 {
      AtBoundary(c - 1, n, perChunk, delay);
      Extended(c, n, perChunk, delay);
    }
  }

  lemma Extended(c: nat, n: nat, perChunk: real, delay: real)
    requires 0 < c <= n
    ensures var e := Emitted(c, n, perChunk, delay); var before := Emitted(c - 1, n, perChunk, delay);
            && Actives(e) == Actives(before) + (if perChunk > 0.0 then 1 else 0)
            && Gaps(e) == Gaps(before) + (if c < n && delay > 0.0 then 1 else 0)
            && Total(e) == Total(before) + Pos(perChunk) + (if c < n then Pos(delay) else 0.0)
  {
    var before := Emitted(c - 1, n, perChunk, delay);
    Joined(before, ActiveSlice(perChunk));
    Joined(before + ActiveSlice(perChunk), if c < n then GapSlice(delay) else []);
    OneSlice(perChunk);
    OneSlice(delay);
  }

  lemma OneMore(c: nat, x: real)
    requires c > 0
    ensures c as real * x == (c - 1) as real * x + x
  {
  }

  lemma {:induction false} TotalAtBoundary(c: nat, n: nat, perChunk: real, delay: real)
    requires c <= n
    ensures Total(Emitted(c, n, perChunk, delay)) == c as real * Pos(perChunk) + GapsDone(c, n) as real * Pos(delay)
  {
    if c > 0 {
      TotalAtBoundary(c - 1, n, perChunk, delay);
      Extended(c, n, perChunk, delay);
      OneMore(c, Pos(perChunk));
      if c < n {
        OneMore(c, Pos(delay));
      }
    }
  }

  // The whole service takes service_ms plus chunks - 1 delays.
  lemma FullTotal(serviceMs: real, chunks: int, delay: real)
    ensures Total(FullSchedule(serviceMs, chunks, delay))
         == Pos(serviceMs) + (Max(1, chunks) - 1) as real * Pos(delay)
  {
    var n := ChunkCount(chunks);
    TotalAtBoundary(n, n, PerChunk(serviceMs, chunks), delay);
    Undivided(serviceMs, n);
  }

  lemma Undivided(x: real, n: nat)
    requires n > 0
    ensures n as real * Pos(x / n as real) == Pos(x)
  {
    var y := x / n as real;
    assert n as real * y == x;
  }

  // With work and gaps both present, active steps and gaps alternate, the first slice
  // being active; a stop at a boundary comes after a gap.
  lemma {:induction false} Alternates(c: nat, n: nat, perChunk: real, delay: real)
    requires c <= n && perChunk > 0.0 && delay > 0.0
    ensures var e := Emitted(c, n, perChunk, delay);
            && |e| == c + GapsDone(c, n)
            && forall j :: 0 <= j < |e| ==> e[j] == if j % 2 == 0 then Active(perChunk) else Gap(delay)
  {
    if c > 0 {
      Alternates(c - 1, n, perChunk, delay);
    }
  }

  // ---- The Ray actor ----

  datatype ServeStatus = Served | ServeFailed

  // SyntheticServer.serve. An absent key, None or 0 takes the default, and only
  // sleep mode is supported.
  method RayServe(serviceMs: real, chunksField: Option<int>, delayField: Option<real>, isSleep: bool)
      returns (status: ServeStatus, trace: seq<Slice>)
    ensures status == (if isSleep then Served else ServeFailed)
    ensures var chunks := if chunksField.Some? then chunksField.value else 1;
            var delay := if delayField.Some? then delayField.value else 0.0;
            trace == if isSleep then FullSchedule(serviceMs, chunks, delay) else []
  {
    trace := [];
    if !isSleep {
      return ServeFailed, [];
    }
    var n := if chunksField.None? || chunksField.value == 0 then 1 else chunksField.value;
    if n < 1 {
      n := 1;
    }
    var delay := if delayField.None? then 0.0 else delayField.value;
    var perChunk := serviceMs / n as real;
    for c := 0 to n
      invariant trace == Emitted(c, n, perChunk, delay)
    {
      if perChunk > 0.0 {
        trace := trace + [Active(perChunk)];
      }
      if c + 1 < n && delay > 0.0 {
        trace := trace + [Gap(delay)];
      }
    }
    status := Served;
  }
}
