/**
 * `run` of src/computer/computer-runtime.ts: a validated list of actions is
 * performed in order under a deadline, and inputs that may be held down are
 * released at the end whatever happens.
 */
module ActionProgram {
  import opened Wrappers

  datatype Code = Disabled | Unavailable | ProtocolInvalid | OutputLimit | TimedOut | ActionFailed
      | Native(name: string)

  /** What a failed await throws: an error with a known code, or anything else. */
  datatype Thrown = Known(code: Code) | Foreign

  /** How a native request ends; `flaw` is what checking its result throws. */
  datatype Reply = Answered(flaw: Option<Thrown>) | Rejected(thrown: Thrown)

  /** What the program sees of its surroundings at one moment. */
  datatype Moment = Moment(enabled: bool, closing: bool, aborted: bool, now: real, reply: Reply)

  /** The moments in the order the program looks at them. */
  type World = nat -> Moment

  datatype Kind = MouseDown | MouseUp | OtherKind(name: string)

  /** `checked`: the result is validated; `timeout` is the explicit wait among the parameters. */
  datatype Task = Wait(ms: nat) | Request(timeout: Option<int>, physical: bool, checked: bool)

  datatype Action = Action(kind: Kind, task: Task)

  datatype Final = NoObservation | ActiveWindow | Observe

  /** An action is None when it does not validate. */
  datatype Input = Input(actions: seq<Option<Action>>, timeoutMs: Option<int>, final: Final, ownerMode: bool)

  datatype Config = Config(requestTimeout: int, maxActions: nat, maxRuntime: int)

  datatype Step = Step(index: nat, kind: Kind)

  datatype Outcome =
    | Finished(verified: bool, completedCount: nat, actionCount: nat, steps: seq<Step>, truncated: bool, observed: bool)
    | StepFailed(code: Code, failedStepIndex: nat, completedCount: nat, actionCount: nat)
    | Failed(code: Code)

  /** What the program did; `at` is the clock when the time allowed was computed. */
  datatype Event =
    | Sent(index: nat, physical: bool, timeout: int, at: real)
    | Waited(index: nat, ms: int, at: real)
    | Observed(timeout: int, at: real)
    | Released(timeout: int)

  const MAX_STEP_RESULTS := 256

  const MAX_EXPLICIT_RUNTIME_MS := 2_147_483_647

  predicate Holds(action: Action) {
    action.kind.MouseDown? || action.kind.MouseUp?
  }

  function CodeOf(thrown: Thrown): Code {
    if thrown.Known? then thrown.code else ActionFailed
  }

  function Min(a: int, b: int): int { if a < b then a else b }

  function Max(a: int, b: int): int { if a < b then b else a }

  /** `requestBudget` */
  function Budget(config: Config, timeout: Option<int>): int {
    if timeout.None? then config.requestTimeout
    else Max(config.requestTimeout, Min(61_000, timeout.value + 1_000))
  }

  /** `remainingMs`: whole milliseconds until the deadline. */
  function Remaining(deadline: real, now: real): int {
    (deadline - now).Floor
  }

  predicate Late(deadline: Option<real>, now: real) {
    deadline.Some? && Remaining(deadline.value, now) <= 0
  }

  /** `nativeTimeoutMs`, when it does not throw. */
  function Timeout(deadline: Option<real>, now: real, budget: int): int {
    if deadline.None? then budget else Min(budget, Remaining(deadline.value, now))
  }

  // ---------------------------------------------------------------- what one action needs

  /** How many moments an action looks at. */
  function Looks(action: Action): nat {
    if action.task.Wait? then 2 else 3
  }

  /** The moment at which the i-th action starts. */
  function StartOf(actions: seq<Action>, i: nat): nat
    requires i <= |actions|
  {
    if i == 0 then 2 else StartOf(actions, i - 1) + Looks(actions[i - 1])
  }

  /** Why an action that starts at moment `t` does not complete; None when it does. */
  function Fault(action: Action, deadline: Option<real>, world: World, t: nat): Option<Thrown> {
    if world(t).closing then Some(Known(Unavailable))
    else if world(t).aborted then Some(Known(ActionFailed))
    else if Late(deadline, world(t).now) then Some(Known(TimedOut))
    else match action.task
      case Wait(ms) =>
        if world(t + 1).reply.Rejected? then Some(world(t + 1).reply.thrown)
        else if world(t + 1).aborted then Some(Known(ActionFailed))
        else if deadline.Some? && ms > Remaining(deadline.value, world(t).now) then Some(Known(TimedOut))
        else None
      case Request(_, _, checked) =>
        if Late(deadline, world(t + 1).now) then Some(Known(TimedOut))
        else if world(t + 2).reply.Rejected? then Some(world(t + 2).reply.thrown)
        else if world(t + 2).aborted then Some(Known(ActionFailed))
        else if checked then world(t + 2).reply.flaw
        else None
  }

  /** An event that uses no time past the deadline, and asks for at least a millisecond. */
  predicate InTime(e: Event, deadline: Option<real>) {
    match e
    case Sent(_, _, timeout, at) => timeout >= 1 && (deadline.Some? ==> at + timeout as real <= deadline.value)
    case Waited(_, ms, at) => ms >= 0 && (deadline.Some? ==> at + ms as real <= deadline.value)
    case Observed(timeout, at) => timeout >= 1 && (deadline.Some? ==> at + timeout as real <= deadline.value)
    case Released(_) => true
  }

  /** The event of the i-th action: it asks for all the time it may have, up to its own budget. */
  predicate Performs(e: Event, i: nat, action: Action, deadline: Option<real>, config: Config) {
    match action.task
    case Wait(ms) => e.Waited? && e.index == i && e.ms == Timeout(deadline, e.at, ms)
    case Request(timeout, physical, _) =>
      e.Sent? && e.index == i && e.physical == physical && e.timeout == Timeout(deadline, e.at, Budget(config, timeout))
  }

  /** An explicit wait gets a second more for the answer. */
  lemma BudgetCovers(config: Config, ms: int)
    requires ms <= 60_000
    ensures Budget(config, Some(ms)) >= ms + 1_000 && Budget(config, Some(ms)) >= Budget(config, None)
    ensures Budget(config, Some(ms)) <= Max(config.requestTimeout, 61_000)
  {
  }

  /** An explicit wait of a request is covered, with a second for the answer, unless the deadline is nearer. */
  predicate Covered(e: Event, action: Action, deadline: Option<real>) {
    action.task.Request? && action.task.timeout.Some? && e.Sent? ==>
      || e.timeout >= Min(60_000, action.task.timeout.value) + 1_000
      || (deadline.Some? && e.timeout == Remaining(deadline.value, e.at))
  }

  lemma PerformedIsCovered(e: Event, i: nat, action: Action, deadline: Option<real>, config: Config)
    requires Performs(e, i, action, deadline, config)
    ensures Covered(e, action, deadline)
  {
    if action.task.Request? && action.task.timeout.Some? {
      BudgetCovers(config, Min(60_000, action.task.timeout.value));
    }
  }

  predicate AllCovered(trace: seq<Event>, actions: seq<Action>, deadline: Option<real>) {
    forall k :: 0 <= k < |trace| && trace[k].Sent? ==>
      trace[k].index == k < |actions| && Covered(trace[k], actions[k], deadline)
  }

  /** The clock by which the time of an action that starts at moment `t` is counted. */
  function ClockOf(action: Action, world: World, t: nat): real {
    if action.task.Wait? then world(t).now else world(t + 1).now
  }

  /** The k-th event was timed by the clock when its action asked for it. */
  predicate ClockedAt(trace: seq<Event>, actions: seq<Action>, world: World, k: nat)
    requires k < |trace|
  {
    trace[k].Sent? || trace[k].Waited? ==>
      k < |actions| && trace[k].at == ClockOf(actions[k], world, StartOf(actions, k))
  }

  predicate Clocked(trace: seq<Event>, actions: seq<Action>, world: World) {
    forall k :: 0 <= k < |trace| ==> ClockedAt(trace, actions, world, k)
  }

  lemma ClockedGrows(trace: seq<Event>, more: seq<Event>, actions: seq<Action>, world: World)
    requires Clocked(trace, actions, world) && |more| <= 1
    requires more != [] && (more[0].Sent? || more[0].Waited?) ==>
               |trace| < |actions| && more[0].at == ClockOf(actions[|trace|], world, StartOf(actions, |trace|))
    ensures Clocked(trace + more, actions, world)
  {
    var all := trace + more;
    forall k | 0 <= k < |all|
      ensures ClockedAt(all, actions, world, k)
    {
      if k < |trace| {
        assert ClockedAt(trace, actions, world, k) && all[k] == trace[k];
      }
    }
  }

  predicate Physical(e: Event) {
    e.Sent? && e.physical
  }

  /** The body of the inner `try`: `thrown` is what it throws. */
  method Attempt(action: Action, index: nat, deadline: Option<real>, config: Config, world: World, t: nat)
    returns (thrown: Option<Thrown>, trace: seq<Event>, dirty: bool)
    requires config.requestTimeout >= 1 && !world(t).closing
    ensures thrown == Fault(action, deadline, world, t)
    ensures |trace| <= 1 && (thrown.None? ==> |trace| == 1)
    ensures trace != [] ==> Performs(trace[0], index, action, deadline, config) && InTime(trace[0], deadline)
    ensures trace != [] ==> (trace[0].Sent? || trace[0].Waited?) && trace[0].at == ClockOf(action, world, t)
    ensures trace != [] && Physical(trace[0]) ==> dirty
    ensures dirty ==> Presses(action)
  {
    thrown, trace, dirty := None, [], false;
    if world(t).aborted {
      return Some(Known(ActionFailed)), trace, dirty;
    }
    if Late(deadline, world(t).now) {
      return Some(Known(TimedOut)), trace, dirty;
    }
    match action.task
    case Wait(ms) =>
      var tooLong := deadline.Some? && ms > Remaining(deadline.value, world(t).now);
      trace := [Waited(index, if tooLong then Remaining(deadline.value, world(t).now) else ms, world(t).now)];
      if world(t + 1).reply.Rejected? {
        return Some(world(t + 1).reply.thrown), trace, dirty;
      }
      if world(t + 1).aborted {
        return Some(Known(ActionFailed)), trace, dirty;
      }
      if tooLong {
        thrown := Some(Known(TimedOut));
      }
    case Request(timeout, physical, checked) =>
      if physical {
        dirty := true;
      }
      if Late(deadline, world(t + 1).now) {
        return Some(Known(TimedOut)), trace, dirty;
      }
      trace := [Sent(index, physical, Timeout(deadline, world(t + 1).now, Budget(config, timeout)), world(t + 1).now)];
      if world(t + 2).reply.Rejected? {
        return Some(world(t + 2).reply.thrown), trace, dirty;
      }
      if world(t + 2).aborted {
        return Some(Known(ActionFailed)), trace, dirty;
      }
      if checked && world(t + 2).reply.flaw.Some? {
        thrown := world(t + 2).reply.flaw;
      }
  }

  // ---------------------------------------------------------------- before the lane is entered

  /** `requireEnabled` */
  function Barred(moment: Moment): Option<Code> {
    if !moment.enabled then Some(Disabled)
    else if moment.closing then Some(Unavailable)
    else None
  }

  /** All actions of the input, if all of them validate. */
  function Prepared(actions: seq<Option<Action>>): Option<seq<Action>> {
    if actions == [] then Some([])
    else
      var init := Prepared(actions[..|actions| - 1]);
      if init.None? || actions[|actions| - 1].None? then None
      else Some(init.value + [actions[|actions| - 1].value])
  }

  predicate TimeoutAllowed(timeoutMs: Option<int>) {
    timeoutMs.Some? ==> 0 < timeoutMs.value <= MAX_EXPLICIT_RUNTIME_MS
  }

  /** An owner has no deadline but the one asked for; for others the configured runtime bounds it. */
  function Deadline(input: Input, config: Config, now: real): Option<real> {
    match input.timeoutMs
    case Some(ms) => Some(now + (if input.ownerMode then ms else Min(ms, config.maxRuntime)) as real)
    case None => if input.ownerMode then None else Some(now + config.maxRuntime as real)
  }

  /** Why the program is refused before its first action; None when it starts. */
  function Refusal(input: Input, config: Config, world: World): Option<Code> {
    if Barred(world(0)).Some? then Barred(world(0))
    else if input.actions == [] then Some(ProtocolInvalid)
    else if !input.ownerMode && |input.actions| > config.maxActions then Some(OutputLimit)
    else if !TimeoutAllowed(input.timeoutMs) || Prepared(input.actions).None? then Some(ProtocolInvalid)
    else Barred(world(1))
  }

  // ---------------------------------------------------------------- the whole program

  function FaultOf(actions: seq<Action>, deadline: Option<real>, world: World, i: nat): Option<Thrown>
    requires i < |actions|
  {
    Fault(actions[i], deadline, world, StartOf(actions, i))
  }

  /** The steps from `from` on. */
  function Steps(actions: seq<Action>, from: nat): seq<Step>
    requires from <= |actions|
  {
    seq(|actions| - from, j requires 0 <= j < |actions| - from => Step(from + j, actions[from + j].kind))
  }

  /** The last `MAX_STEP_RESULTS` steps. */
  function LastSteps(actions: seq<Action>): seq<Step> {
    Steps(actions, if |actions| <= MAX_STEP_RESULTS then 0 else |actions| - MAX_STEP_RESULTS)
  }

  predicate FaultFree(actions: seq<Action>, deadline: Option<real>, world: World, n: nat)
    requires n <= |actions|
  {
    forall i :: 0 <= i < n ==> FaultOf(actions, deadline, world, i).None?
  }

  /** Whether the observation asked for at moment `t` fails. */
  predicate Unobserved(final: Final, deadline: Option<real>, world: World, t: nat) {
    || Late(deadline, world(t + 1).now)
    || world(t + 2).reply.Rejected?
    || world(t + 2).aborted
    || (final.Observe? && world(t + 2).reply.flaw.Some?)
  }

  /** The outcome is decided by the first action that fails. */
  predicate Decided(actions: seq<Action>, deadline: Option<real>, final: Final, world: World, outcome: Outcome) {
    match outcome
    case StepFailed(code, failed, completed, total) =>
      && failed == completed < total == |actions|
      && FaultFree(actions, deadline, world, failed)
      && FaultOf(actions, deadline, world, failed).Some?
      && code == CodeOf(FaultOf(actions, deadline, world, failed).value)
    case Finished(verified, completed, total, steps, truncated, observed) =>
      var end := StartOf(actions, |actions|);
      && completed == total == |actions|
      && FaultFree(actions, deadline, world, |actions|)
      && steps == LastSteps(actions)
      && (truncated <==> |actions| > MAX_STEP_RESULTS)
      && !world(end).aborted
      && (observed <==> verified && !final.NoObservation?)
      && (verified <==> final.NoObservation? || !Unobserved(final, deadline, world, end))
    case Failed(code) => // only an abort after the last action
      var end := StartOf(actions, |actions|);
      && FaultFree(actions, deadline, world, |actions|)
      && if world(end).aborted then code == ActionFailed
         else
           && !final.NoObservation?
           && if Late(deadline, world(end + 1).now) then world(end + 1).aborted && code == TimedOut
              else
                && world(end + 2).aborted
                && code == if world(end + 2).reply.Rejected? then CodeOf(world(end + 2).reply.thrown) else ActionFailed
  }

  function Completed(outcome: Outcome, total: nat): nat {
    if outcome.StepFailed? then outcome.completedCount else total
  }

  predicate TraceInTime(trace: seq<Event>, deadline: Option<real>) {
    forall i :: 0 <= i < |trace| ==> InTime(trace[i], deadline)
  }

  /** Every completed action was performed exactly once, in order. */
  predicate InOrder(trace: seq<Event>, actions: seq<Action>, n: nat, deadline: Option<real>, config: Config)
    requires n <= |actions|
  {
    n <= |trace| && forall i :: 0 <= i < n ==> Performs(trace[i], i, actions[i], deadline, config)
  }

  /** After them come at most the failing action or the observation, and then the release. */
  predicate Rest(trace: seq<Event>, actions: seq<Action>, n: nat, deadline: Option<real>, config: Config)
    requires n <= |actions| && n <= |trace|
  {
    && |trace| <= n + 2
    && (|trace| == n + 2 ==> trace[n + 1].Released?)
    && (|trace| > n ==>
          || trace[n].Observed? || trace[n].Released?
          || (n < |actions| && Performs(trace[n], n, actions[n], deadline, config)))
    && (|trace| == n + 2 ==> !trace[n].Released?)
  }

  predicate EndsReleased(trace: seq<Event>, config: Config) {
    trace != [] && trace[|trace| - 1] == Released(config.requestTimeout)
  }

  ghost predicate Touched(trace: seq<Event>, actions: seq<Action>) {
    || (exists i :: 0 <= i < |actions| && Holds(actions[i]))
    || (exists i :: 0 <= i < |trace| && Physical(trace[i]))
  }

  predicate Presses(action: Action) {
    action.task.Request? && action.task.physical
  }

  /** Some action may hold an input down, or a physical one was reached. */
  ghost predicate NeedsRelease(actions: seq<Action>, n: nat) {
    || (exists i :: 0 <= i < |actions| && Holds(actions[i]))
    || (exists i :: 0 <= i <= n && i < |actions| && Presses(actions[i]))
  }

  predicate DirtyKnown(trace: seq<Event>, dirty: bool) {
    forall i :: 0 <= i < |trace| && Physical(trace[i]) ==> dirty
  }

  /** The events so far are those of the first `n` actions. */
  predicate Logged(trace: seq<Event>, actions: seq<Action>, n: nat, deadline: Option<real>, config: Config, dirty: bool)
    requires n <= |actions|
  {
    InOrder(trace, actions, n, deadline, config) && TraceInTime(trace, deadline) && DirtyKnown(trace, dirty)
  }

  lemma LogGrows(trace: seq<Event>, more: seq<Event>, actions: seq<Action>, n: nat, deadline: Option<real>,
                 config: Config, dirty: bool, touched: bool)
    requires n < |actions| && |trace| == n && |more| <= 1 && Logged(trace, actions, n, deadline, config, dirty)
    requires more != [] ==> Performs(more[0], n, actions[n], deadline, config) && InTime(more[0], deadline)
    requires more != [] && Physical(more[0]) ==> touched
    ensures Logged(trace + more, actions, n + |more|, deadline, config, dirty || touched)
    ensures Logged(trace + more, actions, n, deadline, config, dirty || touched)
  {
  }

  lemma ObservationLogs(trace: seq<Event>, more: seq<Event>, actions: seq<Action>, deadline: Option<real>,
                        config: Config, dirty: bool)
    requires |trace| == |actions| && Logged(trace, actions, |actions|, deadline, config, dirty)
    requires |more| <= 1 && TraceInTime(more, deadline) && (more != [] ==> more[0].Observed?)
    ensures Logged(trace + more, actions, |actions|, deadline, config, dirty)
  {
  }

  // ---------------------------------------------------------------- what the caller is promised

  /** A moment by which the program has to be over: an owner's only by the timeout asked for. */
  predicate Bound(input: Input, config: Config, start: real, b: real) {
    || (input.timeoutMs.Some? && b == start + input.timeoutMs.value as real)
    || (!input.ownerMode && b == start + config.maxRuntime as real)
  }

  /** The earliest of these moments, if there is one. */
  ghost predicate Nearest(input: Input, config: Config, start: real, deadline: Option<real>) {
    match deadline
    case None => forall b :: !Bound(input, config, start, b)
    case Some(d) => Bound(input, config, start, d) && forall b :: Bound(input, config, start, b) ==> d <= b
  }

  lemma DeadlineIsNearest(input: Input, config: Config, start: real)
    ensures Nearest(input, config, start, Deadline(input, config, start))
    ensures forall d :: Nearest(input, config, start, d) ==> d == Deadline(input, config, start)
  {
    var asked := if input.timeoutMs.Some? then start + input.timeoutMs.value as real else start;
    var allowed := start + config.maxRuntime as real;
    assert input.timeoutMs.Some? ==> Bound(input, config, start, asked);
    assert !input.ownerMode ==> Bound(input, config, start, allowed);
  }

  /** The input is well-formed, short enough and allowed so long. */
  predicate Valid(input: Input, config: Config) {
    && input.actions != [] && (input.ownerMode || |input.actions| <= config.maxActions)
    && (input.timeoutMs.Some? ==> 0 < input.timeoutMs.value <= 2_147_483_647)
    && forall i :: 0 <= i < |input.actions| ==> input.actions[i].Some?
  }

  predicate Available(moment: Moment) {
    moment.enabled && !moment.closing
  }

  /** The runtime is available when the program is asked for and when it gets the lane. */
  predicate Admitted(input: Input, config: Config, world: World) {
    Available(world(0)) && Valid(input, config) && Available(world(1))
  }

  /** What an input that is not admitted fails with. */
  predicate Refused(input: Input, config: Config, world: World, code: Code) {
    match code
    case Disabled => if Available(world(0)) then Valid(input, config) && !world(1).enabled else !world(0).enabled
    case Unavailable =>
      if Available(world(0)) then Valid(input, config) && world(1).enabled && world(1).closing else world(0).enabled
    case OutputLimit =>
      Available(world(0)) && !input.ownerMode && |input.actions| > config.maxActions && input.actions != []
    case ProtocolInvalid =>
      && Available(world(0)) && !Valid(input, config)
      && (input.actions == [] || input.ownerMode || |input.actions| <= config.maxActions)
    case _ => false
  }

  predicate Lists(input: Input, actions: seq<Action>) {
    |actions| == |input.actions| && forall i :: 0 <= i < |actions| ==> input.actions[i] == Some(actions[i])
  }

  lemma {:induction false} PreparedLists(actions: seq<Option<Action>>)
    ensures Prepared(actions).Some? <==> forall i :: 0 <= i < |actions| ==> actions[i].Some?
    ensures Prepared(actions).Some? ==>
              && |Prepared(actions).value| == |actions|
              && forall i :: 0 <= i < |actions| ==> actions[i] == Some(Prepared(actions).value[i])
  {
    if actions != [] {
      PreparedLists(actions[..|actions| - 1]);
    }
  }

  lemma RefusalMeans(input: Input, config: Config, world: World)
    ensures Refusal(input, config, world).None? <==> Admitted(input, config, world)
    ensures Refusal(input, config, world).Some? ==> Refused(input, config, world, Refusal(input, config, world).value)
  {
    PreparedLists(input.actions);
  }

  /** How a program that was admitted goes. */
  ghost predicate Goes(actions: seq<Action>, deadline: Option<real>, final: Final, config: Config, world: World,
                       outcome: Outcome, trace: seq<Event>) {
    var n := Completed(outcome, |actions|);
    && Decided(actions, deadline, final, world, outcome)
    && TraceInTime(trace, deadline) && AllCovered(trace, actions, deadline) && Clocked(trace, actions, world)
    && n <= |actions| && InOrder(trace, actions, n, deadline, config)
    && Rest(trace, actions, n, deadline, config)
    && (Touched(trace, actions) ==> EndsReleased(trace, config))
    && (EndsReleased(trace, config) ==> NeedsRelease(actions, n) || exists look :: world(look).aborted)
  }

  /** Every event of the program is over by every moment that bounds it. */
  ghost predicate WithinBounds(input: Input, config: Config, start: real, trace: seq<Event>) {
    forall b :: Bound(input, config, start, b) ==> TraceInTime(trace, Some(b))
  }

  /** Each wait that completed was waited in full. */
  predicate WaitsInFull(trace: seq<Event>, actions: seq<Action>, n: nat)
    requires n <= |actions|
  {
    n <= |trace| && forall i :: 0 <= i < n && actions[i].task.Wait? ==>
      trace[i].Waited? && trace[i].ms == actions[i].task.ms
  }

  /** Not the program but what it waits for says that time is over. */
  predicate SaysTimedOut(reply: Reply) {
    reply == Reply.Rejected(Known(TimedOut)) || reply == Answered(Some(Known(TimedOut)))
  }

  /** By this clock less than a millisecond is left before some bound, or less than `ms` milliseconds. */
  ghost predicate BoundReached(input: Input, config: Config, start: real, now: real, ms: int) {
    exists b :: Bound(input, config, start, b) && now + ms as real > b - 1.0
  }

  /** Time is over for an action, as the native side says or as some bound has been reached. */
  ghost predicate TimeoutDue(input: Input, config: Config, action: Action, world: World, t: nat) {
    var start := world(0).now;
    || SaysTimedOut(world(t + 1).reply) || SaysTimedOut(world(t + 2).reply)
    || BoundReached(input, config, start, world(t).now, if action.task.Wait? then action.task.ms else 0)
    || BoundReached(input, config, start, world(t + 1).now, 0)
  }

  lemma LateIsReached(input: Input, config: Config, start: real, deadline: Option<real>, now: real, ms: nat)
    requires Nearest(input, config, start, deadline) && deadline.Some?
    requires Remaining(deadline.value, now) <= 0 || ms > Remaining(deadline.value, now)
    ensures BoundReached(input, config, start, now, ms)
  {
    assert Bound(input, config, start, deadline.value) && now + ms as real > deadline.value - 1.0;
  }

  lemma FaultIsDue(input: Input, config: Config, action: Action, deadline: Option<real>, world: World, t: nat)
    requires Nearest(input, config, world(0).now, deadline)
    requires Fault(action, deadline, world, t) == Some(Known(TimedOut))
    ensures TimeoutDue(input, config, action, world, t)
  {
    var ms := if action.task.Wait? then action.task.ms else 0;
    if !world(t).closing && !world(t).aborted {
      if Late(deadline, world(t).now) || (action.task.Wait? && deadline.Some?
                                          && ms > Remaining(deadline.value, world(t).now)) {
        LateIsReached(input, config, world(0).now, deadline, world(t).now, ms);
      } else if action.task.Request? && Late(deadline, world(t + 1).now) {
        LateIsReached(input, config, world(0).now, deadline, world(t + 1).now, 0);
      }
    }
  }

  lemma InTimeOfAll(input: Input, config: Config, start: real, deadline: Option<real>, trace: seq<Event>)
    requires Nearest(input, config, start, deadline) && TraceInTime(trace, deadline)
    ensures WithinBounds(input, config, start, trace)
  {
    forall b | Bound(input, config, start, b)
      ensures TraceInTime(trace, Some(b))
    {
      assert deadline.Some? && deadline.value <= b;
      forall i | 0 <= i < |trace|
        ensures InTime(trace[i], Some(b))
      {
        assert InTime(trace[i], deadline);
      }
    }
  }

  lemma WaitsAreFull(trace: seq<Event>, actions: seq<Action>, n: nat, deadline: Option<real>, config: Config,
                     world: World)
    requires n <= |actions| && InOrder(trace, actions, n, deadline, config) && Clocked(trace, actions, world)
    requires FaultFree(actions, deadline, world, n)
    ensures WaitsInFull(trace, actions, n)
  {
    forall i | 0 <= i < n && actions[i].task.Wait?
      ensures trace[i].Waited? && trace[i].ms == actions[i].task.ms
    {
      assert Performs(trace[i], i, actions[i], deadline, config) && ClockedAt(trace, actions, world, i);
      assert FaultOf(actions, deadline, world, i).None?;
    }
  }

  method Run(input: Input, config: Config, world: World) returns (outcome: Outcome, trace: seq<Event>)
    requires config.requestTimeout >= 1
    ensures !Admitted(input, config, world) ==>
              trace == [] && outcome.Failed? && Refused(input, config, world, outcome.code)
    ensures Admitted(input, config, world) ==>
              forall actions, deadline :: Lists(input, actions) && Nearest(input, config, world(0).now, deadline) ==>
                Goes(actions, deadline, input.final, config, world, outcome, trace)
    ensures WithinBounds(input, config, world(0).now, trace)
    ensures Admitted(input, config, world) ==>
              forall actions :: Lists(input, actions) ==>
                && Completed(outcome, |actions|) <= |actions|
                && WaitsInFull(trace, actions, Completed(outcome, |actions|))
                && (outcome.StepFailed? && outcome.code == TimedOut ==>
                      var i := outcome.failedStepIndex;
                      i < |actions| && TimeoutDue(input, config, actions[i], world, StartOf(actions, i)))
  {
    RefusalMeans(input, config, world);
    trace := [];
    var refusal := Refusal(input, config, world);
    if refusal.Some? {
      return Failed(refusal.value), trace;
    }
    var actions := Prepared(input.actions).value;
    var deadline := Deadline(input, config, world(0).now);
    outcome, trace := RunAdmitted(actions, deadline, input.final, config, world);
    PreparedLists(input.actions);
    DeadlineIsNearest(input, config, world(0).now);
    assert forall other :: Lists(input, other) ==> other == actions;
    ghost var n := Completed(outcome, |actions|);
    InTimeOfAll(input, config, world(0).now, deadline, trace);
    WaitsAreFull(trace, actions, n, deadline, config, world);
    if outcome.StepFailed? && outcome.code == TimedOut {
      FaultIsDue(input, config, actions[n], deadline, world, StartOf(actions, n));
    }
  }

  /** What runs in the lane. */
  method RunAdmitted(actions: seq<Action>, deadline: Option<real>, final: Final, config: Config, world: World)
    returns (outcome: Outcome, trace: seq<Event>)
    requires config.requestTimeout >= 1
    ensures Goes(actions, deadline, final, config, world, outcome, trace)
  {
    var dirty := exists i :: 0 <= i < |actions| && Holds(actions[i]);
    var code, completed, steps, truncated, t;
    code, completed, steps, truncated, trace, t, dirty := Perform(actions, deadline, config, world, dirty);
    if code.Some? {
      outcome := StepFailed(code.value, completed, completed, |actions|);
    } else {
      var observation;
      outcome, observation, t := Conclude(actions, deadline, final, config, world, steps, truncated);
      ObservationLogs(trace, observation, actions, deadline, config, dirty);
      ClockedGrows(trace, observation, actions, world);
      trace := trace + observation;
    }
    ghost var n := Completed(outcome, |actions|);
    ReleaseEnds(trace, actions, n, deadline, config, dirty);
    if dirty || world(t).aborted {
      ClockedGrows(trace, [Released(config.requestTimeout)], actions, world);
      trace := trace + [Released(config.requestTimeout)];
    }
    TraceIsCovered(trace, actions, n, deadline, config);
  }

  lemma TraceIsCovered(trace: seq<Event>, actions: seq<Action>, n: nat, deadline: Option<real>, config: Config)
    requires n <= |actions| && InOrder(trace, actions, n, deadline, config) && Rest(trace, actions, n, deadline, config)
    ensures AllCovered(trace, actions, deadline)
  {
    forall k | 0 <= k < |trace| && trace[k].Sent?
      ensures trace[k].index == k < |actions| && Covered(trace[k], actions[k], deadline)
    {
      PerformedIsCovered(trace[k], k, actions[k], deadline, config);
    }
  }

  /** Adding the release keeps the shape of the trace. */
  lemma ReleaseEnds(trace: seq<Event>, actions: seq<Action>, n: nat, deadline: Option<real>, config: Config,
                    dirty: bool)
    requires n <= |actions| && Logged(trace, actions, n, deadline, config, dirty)
    requires (exists i :: 0 <= i < |actions| && Holds(actions[i])) ==> dirty
    requires |trace| <= n + 1
    requires |trace| == n + 1 ==>
               trace[n].Observed? || (n < |actions| && Performs(trace[n], n, actions[n], deadline, config))
    ensures var ended := trace + [Released(config.requestTimeout)];
            && TraceInTime(ended, deadline) && InOrder(ended, actions, n, deadline, config)
            && Rest(ended, actions, n, deadline, config) && EndsReleased(ended, config)
    ensures Rest(trace, actions, n, deadline, config) && !EndsReleased(trace, config)
    ensures Touched(trace, actions) ==> dirty
  {
    var ended := trace + [Released(config.requestTimeout)];
    assert forall i :: 0 <= i < |trace| ==> ended[i] == trace[i];
  }

  /** The loop over the actions; `code` is what the failing one reports. */
  method Perform(actions: seq<Action>, deadline: Option<real>, config: Config, world: World, holding: bool)
    returns (code: Option<Code>, completed: nat, steps: seq<Step>, truncated: bool, trace: seq<Event>, t: nat,
             dirty: bool)
    requires config.requestTimeout >= 1
    ensures completed <= |actions| && FaultFree(actions, deadline, world, completed)
    ensures code.None? ==> completed == |actions| == |trace|
                           && steps == LastSteps(actions) && (truncated <==> |actions| > MAX_STEP_RESULTS)
    ensures code.Some? ==> completed < |actions|
                           && FaultOf(actions, deadline, world, completed).Some?
                           && code.value == CodeOf(FaultOf(actions, deadline, world, completed).value)
                           && |trace| <= completed + 1
                           && (|trace| == completed + 1 ==>
                                 Performs(trace[completed], completed, actions[completed], deadline, config))
    ensures Logged(trace, actions, completed, deadline, config, dirty) && Clocked(trace, actions, world)
    ensures code.None? ==> t == StartOf(actions, |actions|)
    ensures holding ==> dirty
    ensures dirty ==> holding || exists i :: 0 <= i <= completed && i < |actions| && Presses(actions[i])
  {
    code, completed, steps, truncated, trace, t, dirty := None, 0, [], false, [], 2, holding;
    while completed < |actions|
      invariant 0 <= completed <= |actions|
      invariant t == StartOf(actions, completed)
      invariant FaultFree(actions, deadline, world, completed)
      invariant |trace| == completed
      invariant Logged(trace, actions, completed, deadline, config, dirty)
      invariant Clocked(trace, actions, world)
      invariant steps == LastSteps(actions[..completed])
      invariant truncated <==> completed > MAX_STEP_RESULTS
      invariant holding ==> dirty
      invariant dirty ==> holding || exists i :: 0 <= i < completed && Presses(actions[i])
    {
      var action := actions[completed];
      if world(t).closing {
        code := Some(Unavailable);
        return;
      }
      var thrown, more, touched := Attempt(action, completed, deadline, config, world, t);
      LogGrows(trace, more, actions, completed, deadline, config, dirty, touched);
      ClockedGrows(trace, more, actions, world);
      trace, dirty := trace + more, dirty || touched;
      t := t + Looks(action);
      if thrown.Some? {
        code := Some(CodeOf(thrown.value));
        return;
      }
      steps, truncated := Retain(actions, completed, steps, truncated);
      completed := completed + 1;
    }
    assert actions[..completed] == actions;
  }

  /** `retainStep` */
  method Retain(actions: seq<Action>, index: nat, steps: seq<Step>, truncated: bool)
      returns (kept: seq<Step>, cut: bool)
    requires index < |actions| && steps == LastSteps(actions[..index])
    ensures kept == LastSteps(actions[..index + 1])
    ensures cut <==> truncated || index >= MAX_STEP_RESULTS
  {
    kept, cut := steps, truncated;
    if |kept| == MAX_STEP_RESULTS {
      kept, cut := kept[1..], true;
    }
    kept := kept + [Step(index, actions[index].kind)];
  }

  /** The final observation, given the request timeout or what is left until the deadline. */
  function ObservationAt(deadline: Option<real>, config: Config, now: real): Event {
    Observed(Timeout(deadline, now, config.requestTimeout), now)
  }

  /** What follows the last action: the final observation, which may fail without failing the program. */
  method Conclude(
      actions: seq<Action>, deadline: Option<real>, final: Final, config: Config, world: World,
      steps: seq<Step>, truncated: bool)
    returns (outcome: Outcome, trace: seq<Event>, t: nat)
    requires config.requestTimeout >= 1
    requires FaultFree(actions, deadline, world, |actions|)
    requires steps == LastSteps(actions) && (truncated <==> |actions| > MAX_STEP_RESULTS)
    ensures !outcome.StepFailed? && Decided(actions, deadline, final, world, outcome)
    ensures |trace| <= 1 && TraceInTime(trace, deadline)
    ensures var end := StartOf(actions, |actions|);
            var asks := !world(end).aborted && !final.NoObservation? && !Late(deadline, world(end + 1).now);
            trace == if asks then [ObservationAt(deadline, config, world(end + 1).now)] else []
  {
    var n := |actions|;
    trace, t := [], StartOf(actions, n);
    if world(t).aborted {
      return Failed(ActionFailed), trace, t;
    }
    if final.NoObservation? {
      return Finished(true, n, n, steps, truncated, false), trace, t;
    }
    if Late(deadline, world(t + 1).now) {
      outcome := if world(t + 1).aborted then Failed(TimedOut) else Finished(false, n, n, steps, truncated, false);
      return outcome, trace, t + 1;
    }
    trace := [ObservationAt(deadline, config, world(t + 1).now)];
    var reply := world(t + 2).reply;
    if reply.Answered? && !world(t + 2).aborted && !(final.Observe? && reply.flaw.Some?) {
      return Finished(true, n, n, steps, truncated, true), trace, t + 2;
    }
    if world(t + 2).aborted {
      outcome := Failed(if reply.Rejected? then CodeOf(reply.thrown) else ActionFailed);
    } else {
      outcome := Finished(false, n, n, steps, truncated, false);
    }
    return outcome, trace, t + 2;
  }
}
