/**
 * One run of the JS supervisor told from its events: which event fails it and
 * with what error, and what a fulfilled run carries.
 */
module SupervisorRuns {
  import opened RunnerSupervisor
  import opened Wrappers

  // ---------------------------------------------------------------- the story of a run

  /** All the child wrote to its standard output. */
  function OutOf(events: seq<Event>): Bytes {
    if events == [] then []
    else
      var (init, e) := (events[..|events| - 1], events[|events| - 1]);
      OutOf(init) + if e.Stdout? then e.chunk else []
  }

  /** All the child wrote to its standard error. */
  function ErrOf(events: seq<Event>): Bytes {
    if events == [] then []
    else
      var (init, e) := (events[..|events| - 1], events[|events| - 1]);
      ErrOf(init) + if e.Stderr? then e.chunk else []
  }

  /** The results of all `complete` messages. */
  function ResultsOf(events: seq<Event>): seq<Option<Bytes>> {
    if events == [] then []
    else
      var (init, e) := (events[..|events| - 1], events[|events| - 1]);
      ResultsOf(init) + if e.Receive? && e.message.Complete? then [e.message.result] else []
  }

  /** The size of all output and results. */
  function Size(events: seq<Event>): nat {
    |OutOf(events)| + |ErrOf(events)| + ResultsSize(ResultsOf(events))
  }

  function ResultsSize(results: seq<Option<Bytes>>): nat {
    if results == [] then 0
    else ResultsSize(results[..|results| - 1]) + ResultBytes(results[|results| - 1])
  }

  /** Why the event fails a run that has not failed in `events`; None when it does not. */
  function Cause(max: nat, events: seq<Event>, e: Event): Option<Code> {
    match e
    case Stdout(_, _) => if Size(events + [e]) > max then Some(OutputLimit) else None
    case Stderr(_, _) => if Size(events + [e]) > max then Some(OutputLimit) else None
    case Receive(message, _) =>
      if ResultsOf(events) != [] then Some(JsFailed)
      else (match message
            case Rpc => None
            case Malformed => Some(JsFailed)
            case WorkerExit => Some(JsFailed)
            case Complete(result, parses) =>
              if Size(events + [e]) > max then Some(OutputLimit)
              else if result.Some? && !parses then Some(JsFailed)
              else None)
    case RpcFails(takeover, _) => Some(if takeover then UserTakeover else JsFailed)
    case ChildError(_) => Some(JsFailed)
    case ChildClose(_) => if ResultsOf(events) == [] then Some(JsFailed) else None
    case Timer(_) => Some(JsTimeout)
    case Abort(_) => Some(JsFailed)
    case _ => None
  }

  // ---------------------------------------------------------------- states keep to the story

  predicate ChildTold(child: Child, events: seq<Event>) {
    child.closed <==> exists e <- events :: e.ChildClose?
  }

  /** What a run that has not failed knows of its events. */
  predicate Told(s: State, events: seq<Event>) {
    ChildTold(s.child, events) && (!s.flags.terminal ==> OpenTold(s, events))
  }

  predicate OpenTold(s: State, events: seq<Event>) {
    && s.output.stdout == OutOf(events) && s.output.stderr == ErrOf(events) && s.output.bytes == Size(events)
    && s.waiting == Awaited(ResultsOf(events))
    && (s.flags.completing <==> ResultsOf(events) != []) && |ResultsOf(events)| <= 1
  }

  function Awaited(results: seq<Option<Bytes>>): seq<Reaction> {
    if results == [] then [] else [OnComplete(results[0])]
  }

  lemma Snoc(events: seq<Event>, e: Event)
    ensures var all := events + [e];
            && OutOf(all) == OutOf(events) + (if e.Stdout? then e.chunk else [])
            && ErrOf(all) == ErrOf(events) + (if e.Stderr? then e.chunk else [])
            && ResultsOf(all) ==
                 ResultsOf(events) + (if e.Receive? && e.message.Complete? then [e.message.result] else [])
  {
    assert (events + [e])[..|events|] == events;
  }

  lemma SnocSize(events: seq<Event>, e: Event)
    ensures Size(events + [e]) == Size(events)
              + (if e.Stdout? || e.Stderr? then |e.chunk|
                 else if e.Receive? && e.message.Complete? then ResultBytes(e.message.result)
                 else 0)
  {
    Snoc(events, e);
    assert OutOf(events) + [] == OutOf(events) && ErrOf(events) + [] == ErrOf(events);
    assert ResultsOf(events) + [] == ResultsOf(events);
    if e.Receive? && e.message.Complete? {
      var results := ResultsOf(events) + [e.message.result];
      assert results[..|results| - 1] == ResultsOf(events);
    }
  }

  lemma ChildStep(s: State, max: nat, events: seq<Event>, e: Event)
    requires ChildTold(s.child, events) && Enabled(s, e)
    ensures ChildTold(Apply(s, max, e).child, events + [e])
  {
    var all := events + [e];
    assert forall x :: x in all <==> x in events || x == e;
    assert Apply(s, max, e).child.closed <==> s.child.closed || e.ChildClose?;
  }

  lemma OutputTold(s: State, max: nat, events: seq<Event>, e: Event)
    requires OpenTold(s, events) && !s.flags.terminal && (e.Stdout? || e.Stderr?)
    ensures var next := AfterOutput(s, max, e.chunk, e.Stderr?, e.throws);
            && (next.flags.terminal <==> Size(events + [e]) > max)
            && (!next.flags.terminal ==> OpenTold(next, events + [e]))
  {
    Snoc(events, e);
    SnocSize(events, e);
    assert OutOf(events) + [] == OutOf(events) && ErrOf(events) + [] == ErrOf(events);
    assert ResultsOf(events) + [] == ResultsOf(events);
  }

  lemma CompleteAdds(events: seq<Event>, e: Event)
    requires e.Receive? && e.message.Complete? && ResultsOf(events) == []
    ensures var all := events + [e];
            && OutOf(all) == OutOf(events) && ErrOf(all) == ErrOf(events) && ResultsOf(all) == [e.message.result]
            && Size(all) == Size(events) + ResultBytes(e.message.result)
  {
    Snoc(events, e);
    SnocSize(events, e);
    assert OutOf(events) + [] == OutOf(events) && ErrOf(events) + [] == ErrOf(events);
    assert [] + [e.message.result] == [e.message.result];
  }

  lemma CompleteTold(s: State, max: nat, events: seq<Event>, e: Event)
    requires OpenTold(s, events) && !s.flags.terminal && e.Receive? && e.message.Complete? && ResultsOf(events) == []
    ensures var next := AfterMessage(s, max, e.message, e.throws);
            && (next.flags.terminal <==>
                  Size(events + [e]) > max || (e.message.result.Some? && !e.message.parses))
            && (!next.flags.terminal ==> OpenTold(next, events + [e]))
  {
    CompleteAdds(events, e);
    var all := events + [e];
    var result := e.message.result;
    assert Awaited(ResultsOf(all)) == [OnComplete(result)];
    assert s.waiting + [OnComplete(result)] == [OnComplete(result)];
  }

  /** Events that bring neither output nor a result leave what is told. */
  lemma NothingNew(s: State, events: seq<Event>, e: Event)
    requires OpenTold(s, events) && !e.Stdout? && !e.Stderr? && !(e.Receive? && e.message.Complete?)
    ensures OpenTold(s, events + [e])
  {
    Snoc(events, e);
    SnocSize(events, e);
    assert OutOf(events) + [] == OutOf(events) && ErrOf(events) + [] == ErrOf(events);
    assert ResultsOf(events) + [] == ResultsOf(events);
  }

  lemma StepTold(s: State, max: nat, events: seq<Event>, e: Event)
    requires Told(s, events) && Sound(s, max) && Enabled(s, e)
    ensures Told(Apply(s, max, e), events + [e])
  {
    ChildStep(s, max, events, e);
    if !Apply(s, max, e).flags.terminal {
      if e.Stdout? || e.Stderr? {
        OutputTold(s, max, events, e);
      } else if e.Receive? && e.message.Complete? {
        CompleteTold(s, max, events, e);
      } else {
        NothingNew(s, events, e);
      }
    }
  }

  lemma {:induction false} RunTold(s: State, max: nat, done: seq<Event>, events: seq<Event>, end: State)
    requires Told(s, done) && Sound(s, max) && Run(s, max, events, end)
    ensures Told(end, done + events) && Sound(end, max)
    decreases |events|
  {
    if events == [] {
      assert done + events == done;
    } else {
      StepTold(s, max, done, events[0]);
      StepIsSound(s, max, events[0]);
      RunTold(Apply(s, max, events[0]), max, done + [events[0]], events[1..], end);
      MoveFirst(done, events);
    }
  }

  lemma MoveFirst(done: seq<Event>, events: seq<Event>)
    requires events != []
    ensures done + [events[0]] + events[1..] == done + events
  {
  }

  lemma ReachedTold(max: nat, timed: bool, aborted: bool, throws: bool, events: seq<Event>, s: State)
    requires Run(Start(timed, aborted, throws), max, events, s)
    ensures Told(s, events) && Sound(s, max)
  {
    StartIsSound(max, timed, aborted, throws);
    RunTold(Start(timed, aborted, throws), max, [], events, s);
    assert [] + events == events;
  }

  // ---------------------------------------------------------------- every run

  /** The run has gone from `s` to a failure: the error waits, the child is being stopped and was told of once. */
  predicate FailsWith(s: State, next: State, code: Code) {
    && next.flags.terminal && next.waiting == s.waiting + [OnError(code)]
    && next.child.stage != Idle && next.flags.notified == s.flags.notified + 1
  }

  /** An event fails the run exactly when it is a cause, and with that error. */
  predicate FailsFor(s: State, next: State, cause: Option<Code>) {
    if cause.Some? then FailsWith(s, next, cause.value) else !next.flags.terminal
  }

  lemma OutputFails(s: State, max: nat, events: seq<Event>, e: Event)
    requires OpenTold(s, events) && !s.flags.terminal && (e.Stdout? || e.Stderr?)
    ensures FailsFor(s, Apply(s, max, e), Cause(max, events, e))
  {
    OutputTold(s, max, events, e);
  }

  lemma MessageFails(s: State, max: nat, events: seq<Event>, e: Event)
    requires OpenTold(s, events) && !s.flags.terminal && e.Receive?
    ensures FailsFor(s, Apply(s, max, e), Cause(max, events, e))
  {
    if e.message.Complete? && ResultsOf(events) == [] {
      SnocSize(events, e);
    }
  }

  lemma OtherFails(s: State, max: nat, events: seq<Event>, e: Event)
    requires OpenTold(s, events) && !s.flags.terminal && Enabled(s, e)
    requires !e.Stdout? && !e.Stderr? && !e.Receive? && !e.React?
    ensures FailsFor(s, Apply(s, max, e), Cause(max, events, e))
  {
  }

  /** In every run that has not failed, an event fails it exactly when it is a cause, and with that error. */
  lemma EventFails(max: nat, timed: bool, aborted: bool, throws: bool, events: seq<Event>, s: State, e: Event)
    requires Run(Start(timed, aborted, throws), max, events, s)
    requires !s.flags.terminal && Enabled(s, e) && !e.React?
    ensures FailsFor(s, Apply(s, max, e), Cause(max, events, e))
  {
    ReachedTold(max, timed, aborted, throws, events, s);
    if e.Stdout? || e.Stderr? {
      OutputFails(s, max, events, e);
    } else if e.Receive? {
      MessageFails(s, max, events, e);
    } else {
      OtherFails(s, max, events, e);
    }
  }

  /**
   * When a run is fulfilled, its child has closed, it carries all output, and
   * its result is the one that its only `complete` message brought.
   */
  lemma FulfilledCarries(max: nat, timed: bool, aborted: bool, throws: bool, events: seq<Event>, s: State, end: State)
    requires Run(Start(timed, aborted, throws), max, events, s) && Enabled(s, React) && end == Apply(s, max, React)
    requires s.verdicts == [] && end.verdicts != [] && end.verdicts[0].Resolved?
    ensures var Resolved(stdout, stderr, result) := end.verdicts[0];
            && stdout == OutOf(events) && stderr == ErrOf(events)
            && ResultsOf(events) == [result] && Size(events) <= max
            && exists e <- events :: e.ChildClose?
  {
    ReachedTold(max, timed, aborted, throws, events, s);
  }

  /** An accepted result is reported once the termination is over: fulfilled if the child has closed. */
  lemma CompletionSettles(max: nat, timed: bool, aborted: bool, throws: bool, events: seq<Event>, s: State)
    requires Run(Start(timed, aborted, throws), max, events, s)
    requires !s.flags.terminal && Enabled(s, React)
    ensures ResultsOf(events) != []
    ensures Apply(s, max, React).verdicts ==
            [if s.child.stage.Ended? then Resolved(OutOf(events), ErrOf(events), ResultsOf(events)[0])
             else Rejected(JsFailed)]
  {
    ReachedTold(max, timed, aborted, throws, events, s);
  }

  /** A verdict is for good. */
  lemma {:induction false} VerdictStays(s: State, max: nat, events: seq<Event>, end: State)
    requires Sound(s, max) && s.verdicts != [] && Run(s, max, events, end)
    ensures end.verdicts == s.verdicts
    decreases |events|
  {
    if events != [] {
      StepIsSound(s, max, events[0]);
      VerdictStays(Apply(s, max, events[0]), max, events[1..], end);
    }
  }
}
