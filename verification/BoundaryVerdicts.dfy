/**
 * What settles the promise of `forwardUntilBoundary`, event by event: which
 * errors reject it, what fulfils it, and that a verdict is for good.
 */
module BoundaryVerdicts {
  import opened OutputBoundary
  import opened Wrappers

  /** A boundary stands in the data of these events. */
  predicate Seen(events: seq<Event>, boundary: Bytes) {
    IndexOf(Stream(events), boundary) >= 0
  }

  /**
   * The event is an error for a stream that has brought `events`: a failed
   * stream or write, an end without a boundary, or a chunk that has something to
   * write on and cannot, or that brings bytes after the boundary.
   */
  predicate Faulty(events: seq<Event>, boundary: Bytes, e: Event)
    requires boundary != []
  {
    match e
    case Error => true
    case Written(ok) => !ok
    case End => !Seen(events, boundary)
    case Data(chunk, throws) =>
      var (before, stream) := (Stream(events), Stream(events) + chunk);
      && !Seen(events, boundary)
      && ((throws && Forwardable(stream, boundary) != Forwardable(before, boundary))
          || (IndexOf(stream, boundary) >= 0 && IndexOf(stream, boundary) + |boundary| < |stream|))
  }

  lemma {:induction false} RunAppends(s: State, boundary: Bytes, events: seq<Event>, e: Event)
    requires boundary != [] && Run(s, boundary, events).Some? && Enabled(Run(s, boundary, events).value, e)
    ensures Run(s, boundary, events + [e]) == Some(Apply(Run(s, boundary, events).value, boundary, e))
    decreases |events|
  {
    if events == [] {
      assert [] + [e] == [e];
      assert Run(s, boundary, [e]) == Run(Apply(s, boundary, e), boundary, [e][1..]);
    } else {
      RunAppends(Apply(s, boundary, events[0]), boundary, events[1..], e);
      assert (events + [e])[1..] == events[1..] + [e];
    }
  }

  /** While the promise is undecided after the boundary, some write has not been called back. */
  predicate Waits(s: State) {
    s.outcome.Undecided? && s.boundarySeen ==> s.pending != []
  }

  lemma {:induction false} RunWaits(s: State, boundary: Bytes, events: seq<Event>)
    requires boundary != [] && Waits(s) && Run(s, boundary, events).Some?
    ensures Waits(Run(s, boundary, events).value)
    decreases |events|
  {
    if events != [] {
      RunWaits(Apply(s, boundary, events[0]), boundary, events[1..]);
    }
  }

  lemma UndecidedMeans(start: State, boundary: Bytes, events: seq<Event>)
    requires boundary != [] && start == INITIAL && Run(start, boundary, events).Some?
    requires Run(start, boundary, events).value.outcome.Undecided?
    ensures var s := Run(start, boundary, events).value;
            && Inv(s, boundary) && Waits(s) && (s.boundarySeen <==> Seen(events, boundary))
            && (!s.boundarySeen ==> s.received == Stream(events))
  {
    var s := Run(start, boundary, events).value;
    InitialInv(start, boundary);
    RunKeeps(start, boundary, events);
    RunTakes(start, boundary, [], events);
    RunWaits(start, boundary, events);
    assert [] + events == events;
    if s.boundarySeen {
      var more := Stream(events)[|s.received|..];
      assert Stream(events) == s.received + more;
      FirstStays(boundary, s.received, more);
    }
  }

  /** One chunk of a stream without a boundary so far. */
  lemma DataDecides(s: State, boundary: Bytes, events: seq<Event>, chunk: Bytes, throws: bool)
    requires boundary != [] && Inv(s, boundary) && s.outcome.Undecided?
    requires !s.boundarySeen && s.received == Stream(events)
    ensures var next := AfterData(s, boundary, chunk, throws);
            var stream := Stream(events) + chunk;
            && (next.outcome.Rejected? <==> Faulty(events, boundary, Data(chunk, throws)))
            && (next.boundarySeen <==> IndexOf(stream, boundary) >= 0)
            && (next.outcome.Fulfilled? <==> !next.outcome.Rejected? && next.boundarySeen && next.pending == [])
  {
    ForwardableGrows(boundary, s.received, chunk);
    var data := s.tail + chunk;
    var buffer := data[..Cut(data, boundary)];
    AddsSomething(Forwardable(s.received, boundary), buffer);
    if IndexOf(data, boundary) >= 0 {
      TrailingBytes(boundary, s.received, chunk);
      assert |Forwardable(s.received + chunk, boundary)| == IndexOf(s.received + chunk, boundary);
    }
  }

  lemma AddsSomething(before: Bytes, more: Bytes)
    ensures before + more != before <==> more != []
  {
    assert |before + more| == |before| + |more|;
    assert more == [] ==> before + more == before;
  }

  /**
   * In every run, from an undecided promise an event rejects it exactly when it
   * is an error, and fulfils it exactly when it is none, the boundary has been
   * seen and every write has been called back.
   */
  lemma EventDecides(start: State, boundary: Bytes, events: seq<Event>, e: Event)
    requires boundary != [] && start == INITIAL && Run(start, boundary, events).Some?
    requires Run(start, boundary, events).value.outcome.Undecided? && Enabled(Run(start, boundary, events).value, e)
    ensures Run(start, boundary, events + [e]).Some?
    ensures var next := Run(start, boundary, events + [e]).value;
            && (next.outcome.Rejected? <==> Faulty(events, boundary, e))
            && (next.outcome.Fulfilled? <==>
                  !Faulty(events, boundary, e) && Seen(events + [e], boundary) && next.pending == [])
  {
    var s := Run(start, boundary, events).value;
    RunAppends(start, boundary, events, e);
    UndecidedMeans(start, boundary, events);
    StreamSnoc(events, e);
    assert Stream(events) + [] == Stream(events);
    if e.Data? {
      if s.boundarySeen {
        FirstStays(boundary, Stream(events), e.chunk);
      } else {
        DataDecides(s, boundary, events, e.chunk, e.throws);
      }
    }
  }

  /** A verdict is for good. */
  lemma {:induction false} VerdictStays(s: State, boundary: Bytes, events: seq<Event>)
    requires boundary != [] && !s.outcome.Undecided? && Run(s, boundary, events).Some?
    ensures Run(s, boundary, events).value.outcome == s.outcome
    decreases |events|
  {
    if events != [] {
      VerdictStays(Apply(s, boundary, events[0]), boundary, events[1..]);
    }
  }

  /** So in every run any error before the promise is settled rejects it, whatever follows. */
  lemma ErrorsReject(start: State, boundary: Bytes, events: seq<Event>, s: State, e: Event, hit: State,
                     more: seq<Event>, end: State)
    requires boundary != [] && start == INITIAL && Run(start, boundary, events) == Some(s)
    requires s.outcome.Undecided? && Enabled(s, e) && Faulty(events, boundary, e)
    requires Run(start, boundary, events + [e]) == Some(hit) && Run(hit, boundary, more) == Some(end)
    ensures end.outcome.Rejected?
  {
    EventDecides(start, boundary, events, e);
    VerdictStays(hit, boundary, more);
  }
}
