// The chunk loop of the lane object is a run of the lane machine: for any chunks
// during which clients call cancel(), the machine scheduled that way ends the
// service where the object's loop does.
module LaneBigStep {
  import opened Basics
  import opened TokenSpec
  import opened LaneMachine
  import opened LaneInvariant
  import opened LaneObjects

  function Marked(cancels: seq<bool>, c: nat): bool {
    c < |cancels| && cancels[c]
  }

  // From chunk c on: an optional cancel() while the chunk runs, the chunk, and the
  // boundary or completion call after it.
  function ServiceEvents(i: nat, c: nat, n: nat, cancels: seq<bool>): seq<Event>
    requires c < n
    decreases n - c
  {
    var chunk := if Marked(cancels, c) then [Cancel(i), Lane, Lane] else [Lane, Lane];
    if c + 1 < n && !Marked(cancels, c) then chunk + ServiceEvents(i, c + 1, n, cancels) else chunk
  }

  lemma {:induction false} RunConcat(s: State, a: seq<Event>, b: seq<Event>)
    requires Legal(s, a) && Legal(Run(s, a), b)
    ensures Legal(s, a + b) && Run(s, a + b) == Run(Run(s, a), b)
    decreases |a|
  {
    if a == [] {
      assert a + b == b;
    } else {
      assert (a + b)[1..] == a[1..] + b;
      RunConcat(Step(s, a[0]), a[1..], b);
    }
  }

  lemma RunTwo(s: State, e: Event, f: Event)
    requires Enabled(s, e) && Enabled(Step(s, e), f)
    ensures Legal(s, [e, f]) && Run(s, [e, f]) == Step(Step(s, e), f)
  {
    assert [e, f][1..] == [f];
    assert Run(Step(s, e), [f]) == Run(Step(Step(s, e), f), []);
  }

  lemma RunThree(s: State, e: Event, f: Event, g: Event)
    requires Enabled(s, e) && Enabled(Step(s, e), f) && Enabled(Step(Step(s, e), f), g)
    ensures Legal(s, [e, f, g]) && Run(s, [e, f, g]) == Step(Step(Step(s, e), f), g)
  {
    assert [e, f, g][1..] == [f, g];
    RunTwo(Step(s, e), f, g);
  }

  // The lane is about to run chunk c of a cancelable request that nobody cancelled.
  predicate AtCleanChunk(s: State, i: nat, c: nat, t0: int) {
    && i < |s.cells| && s.pc == Chunk(i, c, t0)
    && s.cells[i].q.cancelable && Supported(s.cells[i].q) && c < Chunks(s.cells[i].q)
    && s.cells[i].tok == Token(Running, c < Chunks(s.cells[i].q) - 1)
  }

  // Running chunk c, with the request stopped or not, leads to the next boundary
  // or to the completion call.
  lemma ChunkLeads(s: State, i: nat, c: nat, t0: int)
    requires i < |s.cells| && s.pc == Chunk(i, c, t0) && s.cells[i].q.cancelable && c < Chunks(s.cells[i].q)
    ensures var n := Chunks(s.cells[i].q);
            Step(s, Lane) == s.(cells := s.cells[i := s.cells[i].(ran := s.cells[i].ran + 1)],
                                pc := if c + 1 < n then Boundary(i, c + 1, t0) else Finish(i, t0))
  {
  }

  // With no stop requested, the call after chunk c goes on to the next chunk, or to the end.
  lemma CallLeads(s: State, i: nat, c: nat, t0: int)
    requires i < |s.cells| && s.cells[i].q.cancelable && Supported(s.cells[i].q) && c < Chunks(s.cells[i].q)
    requires s.pc == if c + 1 < Chunks(s.cells[i].q) then Boundary(i, c + 1, t0) else Finish(i, t0)
    requires s.cells[i].tok == Token(Running, c < Chunks(s.cells[i].q) - 1)
    ensures Enabled(s, Lane)
    ensures var s' := Step(s, Lane); var n := Chunks(s.cells[i].q);
            i < |s'.cells| && s'.cells[i].q == s.cells[i].q
            && if c + 1 < n then AtCleanChunk(s', i, c + 1, t0) else s'.pc == Stamp(i, RowCompleted, n, t0)
  {
  }

  // One chunk without a cancel() leads to the next, or to the end.
  lemma QuietChunk(s: State, i: nat, c: nat, t0: int)
    requires AtCleanChunk(s, i, c, t0)
    ensures Legal(s, [Lane, Lane])
    ensures var s' := Run(s, [Lane, Lane]); var n := Chunks(s.cells[i].q);
            i < |s'.cells| && s'.cells[i].q == s.cells[i].q
            && if c + 1 < n then AtCleanChunk(s', i, c + 1, t0) else s'.pc == Stamp(i, RowCompleted, n, t0)
  {
    var ran := s.cells[i].(ran := s.cells[i].ran + 1);
    var s1 := s.(cells := s.cells[i := ran],
                 pc := if c + 1 < Chunks(s.cells[i].q) then Boundary(i, c + 1, t0) else Finish(i, t0));
    ChunkLeads(s, i, c, t0);
    assert Step(s, Lane) == s1 && s1.cells[i] == ran;
    CallLeads(s1, i, c, t0);
    RunTwo(s, Lane, Lane);
  }

  // A cancel() during chunk c: the call after it stops the request, or comes too late.
  lemma CancelledCallLeads(s: State, i: nat, c: nat, t0: int)
    requires i < |s.cells| && s.cells[i].q.cancelable && Supported(s.cells[i].q) && c < Chunks(s.cells[i].q)
    requires s.pc == if c + 1 < Chunks(s.cells[i].q) then Boundary(i, c + 1, t0) else Finish(i, t0)
    requires s.cells[i].tok ==
      if c < Chunks(s.cells[i].q) - 1 then Token(StopRequested, true) else Token(Running, false)
    ensures var n := Chunks(s.cells[i].q);
            Step(s, Lane).pc == if c + 1 < n then Stamp(i, RowCancelled, c + 1, t0) else Stamp(i, RowCompleted, n, t0)
  {
  }

  // A cancel() during a chunk stops the request at the next boundary, unless the
  // chunk is the final one, where it comes too late.
  lemma CancelledChunk(s: State, i: nat, c: nat, t0: int)
    requires AtCleanChunk(s, i, c, t0)
    ensures Legal(s, [Cancel(i), Lane, Lane])
    ensures var s' := Run(s, [Cancel(i), Lane, Lane]); var n := Chunks(s.cells[i].q);
            s'.pc == if c + 1 < n then Stamp(i, RowCancelled, c + 1, t0) else Stamp(i, RowCompleted, n, t0)
  {
    var s1 := s.(cells := s.cells[i := CancelCell(s.cells[i])]);
    assert Step(s, Cancel(i)) == s1;
    ChunkLeads(s1, i, c, t0);
    CancelledCallLeads(Step(s1, Lane), i, c, t0);
    RunThree(s, Cancel(i), Lane, Lane);
  }

  lemma {:induction false} ChunksAreARun(s: State, i: nat, c: nat, t0: int, cancels: seq<bool>)
    requires AtCleanChunk(s, i, c, t0)
    ensures var n := Chunks(s.cells[i].q);
            var k := ChunksRun(cancels, c, n);
            && Legal(s, ServiceEvents(i, c, n, cancels))
            && Run(s, ServiceEvents(i, c, n, cancels)).pc
               == Stamp(i, if k < n then RowCancelled else RowCompleted, k, t0)
    decreases Chunks(s.cells[i].q) - c
  {
    var n := Chunks(s.cells[i].q);
    if Marked(cancels, c) {
      CancelledChunk(s, i, c, t0);
    } else {
      QuietChunk(s, i, c, t0);
      if c + 1 < n {
        var s1 := Run(s, [Lane, Lane]);
        ChunksAreARun(s1, i, c + 1, t0, cancels);
        RunConcat(s, [Lane, Lane], ServiceEvents(i, c + 1, n, cancels));
      }
    }
  }

  // Service of the object and run of the machine, from its first chunk on: same
  // status, same chunks run.
  lemma ServiceIsARun(s: State, i: nat, t0: int, cancels: seq<bool>)
    requires i < |s.cells| && s.pc == Chunk(i, 0, t0) && s.cells[i].q.cancelable
    requires s.cells[i].q.mode == Sleep || s.cells[i].q.mode == Spin
    requires s.cells[i].tok == Token(Running, s.cells[i].q.chunks > 1)
    ensures var n: nat := Max(1, s.cells[i].q.chunks);
            var k := ChunksRun(cancels, 0, n);
            && Legal(s, ServiceEvents(i, 0, n, cancels))
            && Run(s, ServiceEvents(i, 0, n, cancels)).pc
               == Stamp(i, if k < n then RowCancelled else RowCompleted, k, t0)
  {
    ChunksAreARun(s, i, 0, t0, cancels);
  }
}
