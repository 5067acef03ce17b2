/**
 * One `run` of src/computer/computer-js-runner-supervisor.ts: a child process
 * whose output is collected under a budget, and whose promise is settled only
 * when the child has been terminated.
 */
module RunnerSupervisor {
  import opened Wrappers

  datatype Code = JsFailed | OutputLimit | JsTimeout | UserTakeover

  datatype Signal = Term | Kill

  /** Where `terminateOnce` stands. */
  datatype Stage =
    | Idle
    | TermRace   // SIGTERM could not be sent: waiting whether the child closes anyway
    | Grace      // waiting for the child to close by itself
    | KillRace   // SIGKILL could not be sent
    | AwaitClose
    | Ended      // the termination promise is fulfilled
    | Broken     // it is rejected

  /** What waits for the termination promise, in the order it was attached. */
  datatype Reaction = OnComplete(result: Option<Bytes>) | OnError(code: Code)

  datatype Verdict = Resolved(stdout: Bytes, stderr: Bytes, result: Option<Bytes>) | Rejected(code: Code)

  /** The child process; `signals` records what was sent to it. */
  datatype Child = Child(closed: bool, stage: Stage, signals: seq<Signal>)

  /** `armed`: the execution timer runs; `listening`: to the abort signal; `notified` counts calls of `onTerminate`. */
  datatype Flags = Flags(terminal: bool, completing: bool, armed: bool, listening: bool, notified: nat)

  /**
   * The collected output and its size; `heardOut` and `heardErr` record all
   * data that came before the end, `offered` the size of the latest result.
   */
  datatype Output = Output(bytes: nat, stdout: Bytes, stderr: Bytes, heardOut: Bytes, heardErr: Bytes, offered: nat)

  /** `verdicts` records the calls of `resolve` and `reject`. */
  datatype State = State(flags: Flags, output: Output, child: Child, waiting: seq<Reaction>, verdicts: seq<Verdict>)

  datatype Message =
    | Malformed
    | WorkerExit
    | Rpc
    | Complete(result: Option<Bytes>, parses: bool)

  datatype Event =
    | Stdout(chunk: Bytes, throws: bool)
    | Stderr(chunk: Bytes, throws: bool)
    | Receive(message: Message, throws: bool)
    | RpcFails(takeover: bool, throws: bool) // any other failed call is only reported to the child
    | ChildError(throws: bool)
    | ChildClose(throws: bool)
    | Timer(throws: bool)
    | Abort(throws: bool)
    | CloseSupervisor(throws: bool)
    | StopTimer(throws: bool)   // the time the termination waits for the child is over
    | StopClosed                // the termination sees that the child has closed
    | React

  // ---------------------------------------------------------------- termination

  /** `terminate`: the first call sends SIGTERM; `throws`: the signal cannot be sent. */
  function Terminate(child: Child, throws: bool): Child {
    if child.stage != Idle then child
    else child.(stage := if throws then TermRace else Grace, signals := child.signals + [Term])
  }

  function AfterStopTimer(child: Child, throws: bool): Child {
    match child.stage
    case TermRace => child.(stage := Broken)
    case Grace => child.(stage := if throws then KillRace else AwaitClose, signals := child.signals + [Kill])
    case KillRace => child.(stage := Broken)
    case _ => child
  }

  predicate Settled(stage: Stage) {
    stage.Ended? || stage.Broken?
  }

  // ---------------------------------------------------------------- the promise

  function FinishError(s: State, code: Code, throws: bool): State {
    if s.flags.terminal then s
    else s.(flags := Flags(true, s.flags.completing, false, false, s.flags.notified + 1),
            child := Terminate(s.child, throws),
            waiting := s.waiting + [OnError(code)])
  }

  /** A chunk as it is counted; the one that exceeds the budget is not kept. */
  function Hear(output: Output, max: nat, chunk: Bytes, err: bool): Output {
    var bytes := output.bytes + |chunk|;
    var kept := if bytes > max then [] else chunk;
    if err then output.(bytes := bytes, stderr := output.stderr + kept, heardErr := output.heardErr + chunk)
    else output.(bytes := bytes, stdout := output.stdout + kept, heardOut := output.heardOut + chunk)
  }

  function AfterOutput(s: State, max: nat, chunk: Bytes, err: bool, throws: bool): State {
    if s.flags.terminal then s
    else
      var heard := s.(output := Hear(s.output, max, chunk, err));
      if heard.output.bytes > max then FinishError(heard, OutputLimit, throws) else heard
  }

  function ResultBytes(result: Option<Bytes>): nat {
    if result.None? then 0 else |result.value|
  }

  function FinishSuccess(s: State, max: nat, result: Option<Bytes>, parses: bool, throws: bool): State {
    if s.flags.terminal || s.flags.completing then FinishError(s, JsFailed, throws)
    else if s.output.bytes + ResultBytes(result) > max then
      FinishError(s.(output := s.output.(offered := ResultBytes(result))), OutputLimit, throws)
    else if result.Some? && !parses then FinishError(s, JsFailed, throws)
    else s.(output := s.output.(bytes := s.output.bytes + ResultBytes(result), offered := ResultBytes(result)),
            flags := s.flags.(completing := true, armed := false),
            child := Terminate(s.child, throws),
            waiting := s.waiting + [OnComplete(result)])
  }

  function AfterMessage(s: State, max: nat, message: Message, throws: bool): State {
    if s.flags.terminal then s
    else if s.flags.completing then FinishError(s, JsFailed, throws)
    else match message
      case Malformed => FinishError(s, JsFailed, throws)
      case WorkerExit => FinishError(s, JsFailed, throws)
      case Rpc => s
      case Complete(result, parses) => FinishSuccess(s, max, result, parses, throws)
  }

  function AfterClose(s: State, throws: bool): State {
    var closed := s.(child := s.child.(closed := true));
    if !s.flags.terminal && !s.flags.completing then FinishError(closed, JsFailed, throws) else closed
  }

  function AfterReact(s: State): State
    requires s.waiting != []
  {
    var rest := s.(waiting := s.waiting[1..]);
    match s.waiting[0]
    case OnError(code) => rest.(verdicts := s.verdicts + [Rejected(code)])
    case OnComplete(result) =>
      if s.flags.terminal then rest
      else
        var verdict := if s.child.stage.Ended? then Resolved(s.output.stdout, s.output.stderr, result)
            else Rejected(JsFailed);
        rest.(flags := s.flags.(terminal := true, armed := false, listening := false),
              verdicts := s.verdicts + [verdict])
  }

  /** `aborted`: the signal had been aborted already. */
  function Start(timed: bool, aborted: bool, throws: bool): State {
    var s := State(Flags(false, false, timed, !aborted, 0), Output(0, [], [], [], [], 0), Child(false, Idle, []),
                   [], []);
    if aborted then FinishError(s, JsFailed, throws) else s
  }

  predicate Enabled(s: State, e: Event) {
    match e
    case Timer(_) => s.flags.armed
    case Abort(_) => s.flags.listening
    case ChildClose(_) => !s.child.closed
    case StopTimer(_) => !s.child.closed && s.child.stage in {TermRace, Grace, KillRace}
    case StopClosed => s.child.closed && s.child.stage in {TermRace, Grace, KillRace, AwaitClose}
    case React => Settled(s.child.stage) && s.waiting != []
    case _ => true
  }

  function Apply(s: State, max: nat, e: Event): State
    requires Enabled(s, e)
  {
    match e
    case Stdout(chunk, throws) => AfterOutput(s, max, chunk, false, throws)
    case Stderr(chunk, throws) => AfterOutput(s, max, chunk, true, throws)
    case Receive(message, throws) => AfterMessage(s, max, message, throws)
    case RpcFails(takeover, throws) => FinishError(s, if takeover then UserTakeover else JsFailed, throws)
    case ChildError(throws) => FinishError(s, JsFailed, throws)
    case ChildClose(throws) => AfterClose(s, throws)
    case Timer(throws) => FinishError(s, JsTimeout, throws)
    case Abort(throws) => FinishError(s, JsFailed, throws)
    case CloseSupervisor(throws) => s.(child := Terminate(s.child, throws))
    case StopTimer(throws) => s.(child := AfterStopTimer(s.child, throws))
    case StopClosed => s.(child := s.child.(stage := Ended))
    case React => AfterReact(s)
  }

  // ---------------------------------------------------------------- the closure's mutable state

  class Runner {
    const max: nat
    var flags: Flags
    var output: Output
    var child: Child
    var waiting: seq<Reaction>
    ghost var verdicts: seq<Verdict>

    ghost function Snapshot(): State
      reads this
    {
      State(flags, output, child, waiting, verdicts)
    }

    constructor (max: nat, timed: bool, aborted: bool, throws: bool)
      ensures this.max == max && Snapshot() == Start(timed, aborted, throws)
    {
      this.max := max;
      flags := Flags(false, false, timed, !aborted, 0);
      output := Output(0, [], [], [], [], 0);
      child := Child(false, Idle, []);
      waiting, verdicts := [], [];
      new;
      if aborted {
        Fail(JsFailed, throws);
      }
    }

    method StopChild(throws: bool)
      modifies this`child
      ensures child == Terminate(old(child), throws)
    {
      if child.stage == Idle {
        child := child.(stage := if throws then TermRace else Grace, signals := child.signals + [Term]);
      }
    }

    method Fail(code: Code, throws: bool)
      modifies this
      ensures Snapshot() == FinishError(old(Snapshot()), code, throws)
    {
      if flags.terminal {
        return;
      }
      flags := flags.(terminal := true, armed := false, listening := false, notified := flags.notified + 1);
      StopChild(throws);
      waiting := waiting + [OnError(code)];
    }

    method Append(chunk: Bytes, err: bool, throws: bool)
      modifies this
      ensures Snapshot() == AfterOutput(old(Snapshot()), max, chunk, err, throws)
    {
      if flags.terminal {
        return;
      }
      output := Hear(output, max, chunk, err);
      if output.bytes > max {
        Fail(OutputLimit, throws);
      }
    }

    method Succeed(result: Option<Bytes>, parses: bool, throws: bool)
      modifies this
      ensures Snapshot() == FinishSuccess(old(Snapshot()), max, result, parses, throws)
    {
      if flags.terminal || flags.completing {
        Fail(JsFailed, throws);
        return;
      }
      var resultBytes := if result.None? then 0 else |result.value|;
      if output.bytes + resultBytes > max {
        output := output.(offered := resultBytes);
        Fail(OutputLimit, throws);
        return;
      }
      if result.Some? && !parses {
        Fail(JsFailed, throws);
        return;
      }
      output := output.(bytes := output.bytes + resultBytes, offered := resultBytes);
      flags := flags.(completing := true, armed := false);
      StopChild(throws);
      waiting := waiting + [OnComplete(result)];
    }

    method OnMessage(message: Message, throws: bool)
      modifies this
      ensures Snapshot() == AfterMessage(old(Snapshot()), max, message, throws)
    {
      if flags.terminal {
        return;
      }
      if flags.completing {
        Fail(JsFailed, throws);
        return;
      }
      match message
      case Malformed => Fail(JsFailed, throws);
      case WorkerExit => Fail(JsFailed, throws);
      case Rpc =>
      case Complete(result, parses) => Succeed(result, parses, throws);
    }

    method OnClose(throws: bool)
      modifies this
      ensures Snapshot() == AfterClose(old(Snapshot()), throws)
    {
      child := child.(closed := true);
      if !flags.terminal && !flags.completing {
        Fail(JsFailed, throws);
      }
    }

    method OnStopTimer(throws: bool)
      modifies this`child
      ensures child == AfterStopTimer(old(child), throws)
    {
      if child.stage == Grace {
        child := child.(stage := if throws then KillRace else AwaitClose, signals := child.signals + [Kill]);
      } else if child.stage == TermRace || child.stage == KillRace {
        child := child.(stage := Broken);
      }
    }

    method RunReaction()
      requires waiting != []
      modifies this
      ensures Snapshot() == AfterReact(old(Snapshot()))
    {
      var reaction := waiting[0];
      waiting := waiting[1..];
      if reaction.OnError? {
        verdicts := verdicts + [Rejected(reaction.code)];
        return;
      }
      if flags.terminal {
        return;
      }
      flags := flags.(terminal := true, armed := false, listening := false);
      if child.stage == Ended {
        verdicts := verdicts + [Resolved(output.stdout, output.stderr, reaction.result)];
      } else {
        verdicts := verdicts + [Rejected(JsFailed)];
      }
    }
  }

  // ---------------------------------------------------------------- what every step keeps

  /** Who still waits for the termination, and whether the promise is settled. */
  predicate Shape(flags: Flags, waiting: seq<Reaction>, verdicts: seq<Verdict>) {
    if !flags.terminal then
      && verdicts == []
      && (if flags.completing then |waiting| == 1 && waiting[0].OnComplete? else waiting == [])
    else
      || (waiting == [] && |verdicts| == 1)
      || (verdicts == [] && |waiting| == 1 && waiting[0].OnError?)
      || (verdicts == [] && flags.completing && |waiting| == 2 && waiting[0].OnComplete? && waiting[1].OnError?)
  }

  predicate Guarded(flags: Flags) {
    && (flags.terminal ==> !flags.armed && !flags.listening)
    && (flags.completing ==> !flags.armed)
    && flags.notified <= 1 && (!flags.terminal ==> flags.notified == 0)
  }

  predicate Signalled(child: Child, flags: Flags) {
    && (child.stage == Idle <==> child.signals == [])
    && (child.signals == [] || child.signals == [Term] || child.signals == [Term, Kill])
    && (child.stage in {TermRace, Grace} ==> child.signals == [Term])
    && (flags.terminal || flags.completing ==> child.stage != Idle)
    && (child.stage == Ended ==> child.closed)
  }

  /** Everything heard is kept and counted. */
  predicate Collected(output: Output, max: nat, resultBytes: nat) {
    && output.offered == resultBytes
    && output.stdout == output.heardOut && output.stderr == output.heardErr
    && output.bytes == |output.stdout| + |output.stderr| + resultBytes <= max
  }

  /** The result that `complete` brought, while it waits. */
  function Expected(waiting: seq<Reaction>): nat {
    if waiting != [] && waiting[0].OnComplete? then ResultBytes(waiting[0].result) else 0
  }

  /** More output, with the result, than the budget allows. */
  predicate OverBudget(output: Output, max: nat) {
    |output.heardOut| + |output.heardErr| + output.offered > max
  }

  predicate Fair(verdict: Verdict, s: State, max: nat) {
    match verdict
    case Resolved(stdout, stderr, result) =>
      && s.flags.completing && s.child.closed
      && stdout == s.output.heardOut && stderr == s.output.heardErr
      && |stdout| + |stderr| + ResultBytes(result) <= max
    case Rejected(code) => Justified(code, s, max)
  }

  /** The timer decides nothing after completion, and the output limit is named only when it was exceeded. */
  predicate Justified(code: Code, s: State, max: nat) {
    && (code == JsTimeout ==> !s.flags.completing)
    && (code == OutputLimit ==> OverBudget(s.output, max))
  }

  predicate Decided(s: State, max: nat) {
    && (s.verdicts != [] ==> Fair(s.verdicts[0], s, max))
    && (OnError(JsTimeout) in s.waiting ==> Justified(JsTimeout, s, max))
    && (OnError(OutputLimit) in s.waiting ==> Justified(OutputLimit, s, max))
  }

  predicate Sound(s: State, max: nat) {
    && Shape(s.flags, s.waiting, s.verdicts) && Guarded(s.flags) && Signalled(s.child, s.flags)
    && (!s.flags.terminal ==> Collected(s.output, max, Expected(s.waiting)))
    && Decided(s, max)
  }

  lemma FailIsSound(s: State, max: nat, code: Code, throws: bool)
    requires Shape(s.flags, s.waiting, s.verdicts) && Guarded(s.flags) && Signalled(s.child, s.flags) && Decided(s, max)
    requires s.flags.terminal ==> Sound(s, max)
    requires Justified(code, s, max)
    ensures Sound(FinishError(s, code, throws), max)
  {
  }

  lemma HearCollects(output: Output, max: nat, chunk: Bytes, err: bool, resultBytes: nat)
    requires Collected(output, max, resultBytes)
    ensures var heard := Hear(output, max, chunk, err);
            if heard.bytes <= max then Collected(heard, max, resultBytes) else OverBudget(heard, max)
  {
  }

  lemma OutputIsSound(s: State, max: nat, chunk: Bytes, err: bool, throws: bool)
    requires Sound(s, max)
    ensures Sound(AfterOutput(s, max, chunk, err, throws), max)
  {
    if !s.flags.terminal {
      HearCollects(s.output, max, chunk, err, Expected(s.waiting));
      if Hear(s.output, max, chunk, err).bytes > max {
        FailIsSound(s.(output := Hear(s.output, max, chunk, err)), max, OutputLimit, throws);
      }
    }
  }

  lemma MessageIsSound(s: State, max: nat, message: Message, throws: bool)
    requires Sound(s, max)
    ensures Sound(AfterMessage(s, max, message, throws), max)
  {
    FailIsSound(s, max, JsFailed, throws);
    if message.Complete? && !s.flags.terminal && !s.flags.completing {
      var offered := s.(output := s.output.(offered := ResultBytes(message.result)));
      if OverBudget(offered.output, max) {
        FailIsSound(offered, max, OutputLimit, throws);
      }
    }
  }

  lemma ReactIsSound(s: State, max: nat)
    requires Sound(s, max) && Enabled(s, React)
    ensures Sound(AfterReact(s), max)
  {
  }

  lemma StepIsSound(s: State, max: nat, e: Event)
    requires Sound(s, max) && Enabled(s, e)
    ensures Sound(Apply(s, max, e), max)
  {
    match e
    case Stdout(chunk, throws) => OutputIsSound(s, max, chunk, false, throws);
    case Stderr(chunk, throws) => OutputIsSound(s, max, chunk, true, throws);
    case Receive(message, throws) => MessageIsSound(s, max, message, throws);
    case RpcFails(takeover, throws) => FailIsSound(s, max, if takeover then UserTakeover else JsFailed, throws);
    case ChildError(throws) => FailIsSound(s, max, JsFailed, throws);
    case ChildClose(throws) => FailIsSound(s.(child := s.child.(closed := true)), max, JsFailed, throws);
    case Timer(throws) => FailIsSound(s, max, JsTimeout, throws);
    case Abort(throws) => FailIsSound(s, max, JsFailed, throws);
    case React => ReactIsSound(s, max);
    case _ =>
  }

  /** The state after these events, each possible when it happens. */
  predicate Run(s: State, max: nat, events: seq<Event>, end: State)
    decreases |events|
  {
    if events == [] then s == end
    else Enabled(s, events[0]) && Run(Apply(s, max, events[0]), max, events[1..], end)
  }

  lemma {:induction false} RunIsSound(s: State, max: nat, events: seq<Event>, end: State)
    requires Sound(s, max) && Run(s, max, events, end)
    ensures Sound(end, max)
    decreases |events|
  {
    if events != [] {
      StepIsSound(s, max, events[0]);
      RunIsSound(Apply(s, max, events[0]), max, events[1..], end);
    }
  }

  lemma StartIsSound(max: nat, timed: bool, aborted: bool, throws: bool)
    ensures Sound(Start(timed, aborted, throws), max)
  {
  }

  // ---------------------------------------------------------------- every run

  /**
   * In every run the promise is settled at most once, `onTerminate` is called
   * at most once, and the child gets SIGTERM at most once, then SIGKILL.
   */
  lemma SettlesAtMostOnce(max: nat, timed: bool, aborted: bool, throws: bool, events: seq<Event>, end: State)
    requires Run(Start(timed, aborted, throws), max, events, end)
    ensures |end.verdicts| <= 1 && end.flags.notified <= 1
    ensures end.child.signals in {[], [Term], [Term, Kill]}
    ensures (end.flags.terminal || end.flags.completing) && Settled(end.child.stage) && end.waiting == [] ==>
            |end.verdicts| == 1
  {
    StartIsSound(max, timed, aborted, throws);
    RunIsSound(Start(timed, aborted, throws), max, events, end);
  }

  /**
   * A promise is fulfilled only after `complete` and after the child closed,
   * with all the output heard, which with the result is within the budget;
   * once `complete` was accepted the execution timer decides nothing.
   */
  lemma ResolvesWithAllOutput(max: nat, timed: bool, aborted: bool, throws: bool, events: seq<Event>, end: State)
    requires Run(Start(timed, aborted, throws), max, events, end) && end.verdicts != []
    ensures Fair(end.verdicts[0], end, max)
    ensures end.flags.completing ==> !end.flags.armed && end.verdicts[0] != Rejected(JsTimeout)
  {
    StartIsSound(max, timed, aborted, throws);
    RunIsSound(Start(timed, aborted, throws), max, events, end);
  }

  /** The run has failed with this error, which waits to be reported or has been. */
  predicate FailedWith(s: State, code: Code) {
    s.flags.terminal && (OnError(code) in s.waiting || s.verdicts == [Rejected(code)])
  }

  lemma ErrorStays(s: State, max: nat, e: Event, code: Code)
    requires Sound(s, max) && Enabled(s, e) && FailedWith(s, code)
    ensures FailedWith(Apply(s, max, e), code)
  {
  }

  lemma {:induction false} ErrorStaysInRun(s: State, max: nat, events: seq<Event>, end: State, code: Code)
    requires Sound(s, max) && FailedWith(s, code) && Run(s, max, events, end)
    ensures FailedWith(end, code)
    decreases |events|
  {
    if events != [] {
      StepIsSound(s, max, events[0]);
      ErrorStays(s, max, events[0], code);
      ErrorStaysInRun(Apply(s, max, events[0]), max, events[1..], end, code);
    }
  }

  /**
   * The first error is the one reported: in every run, once it waits for the
   * termination, any further events leave it waiting or report it, and no other
   * verdict is ever given.
   */
  lemma FirstErrorSticks(max: nat, timed: bool, aborted: bool, throws: bool, events: seq<Event>, failed: State,
                         more: seq<Event>, end: State, code: Code)
    requires Run(Start(timed, aborted, throws), max, events, failed)
    requires failed.flags.terminal && OnError(code) in failed.waiting
    requires Run(failed, max, more, end)
    ensures if end.verdicts == [] then OnError(code) in end.waiting else end.verdicts == [Rejected(code)]
  {
    StartIsSound(max, timed, aborted, throws);
    RunIsSound(Start(timed, aborted, throws), max, events, failed);
    ErrorStaysInRun(failed, max, more, end, code);
    RunIsSound(failed, max, more, end);
  }

  /** Once the child has closed, a run that is over is never left unsettled: some step leads on. */
  lemma ClosedChildSettles(max: nat, timed: bool, aborted: bool, throws: bool, events: seq<Event>, end: State)
    requires Run(Start(timed, aborted, throws), max, events, end) && end.child.closed && end.verdicts == []
    ensures end.flags.terminal || end.flags.completing ==> Enabled(end, StopClosed) || Enabled(end, React)
  {
    StartIsSound(max, timed, aborted, throws);
    RunIsSound(Start(timed, aborted, throws), max, events, end);
  }
}
