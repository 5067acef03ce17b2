/**
 * src/core/path-lock.ts: per-path queues of promises and sorted acquisition.
 *
 * Every call of `withCanonicalLock` is a ticket. The promise reactions it
 * registers run one by one from the event loop's job queue, in the order they
 * became ready (ECMA-262 section 9.5); submitting a call and finishing an
 * operation may happen between any two reactions. Operations end, and take no
 * locks of their own.
 */
module PathLock {
  import opened Wrappers
  import opened KeyOrder

  /** What has happened to a ticket. */
  datatype Phase =
    | Queued   // waits for `previous`
    | Running  // its operation has been called
    | Settled  // `run` has settled
    | Released // `settled` has resolved
    | Cleaned  // the `finally` callback has run

  datatype Ticket = Ticket(
    job: nat,
    index: nat,               // it locks the job's key at this index
    key: string,
    parent: Option<nat>,      // the ticket whose operation took this one
    nested: Option<nat>,      // the ticket its own operation took
    previous: Option<nat>,    // the tail found in the map
    waiter: Option<nat>,      // who chained onto this ticket's `settled`
    phase: Phase,
    turns: nat)               // job-queue turns until `run` adopts a settled inner promise, whatever kind that is

  /** The user's operation, and the ticket it runs under unless there was nothing to lock. */
  datatype Operation = Waiting | Active(under: Option<nat>) | Done(under: Option<nat>)

  datatype Job = Job(keys: seq<string>, operation: Operation)

  datatype Reaction =
    | Begin(t: nat)  // previous.then(operation, operation)
    | Adopt(t: nat)  // `run` follows the promise its operation returned
    | Settle(t: nat) // run.then(() => undefined, () => undefined)
    | Clean(t: nat)  // run.finally(...)

  datatype State = State(
    jobs: seq<Job>,
    tickets: seq<Ticket>,
    queues: map<string, nat>,
    ready: seq<Reaction>,
    delay: (nat, nat) -> nat) // turns the adoption takes for a job and the index of its key

  predicate Free(p: Phase) {
    p.Released? || p.Cleaned?
  }

  predicate Over(p: Phase) {
    p.Settled? || p.Released? || p.Cleaned?
  }

  predicate Last(jobs: seq<Job>, x: Ticket) {
    x.job < |jobs| && x.index + 1 == |jobs[x.job].keys|
  }

  // ---------------------------------------------------------------- steps

  /** `queues.get(key)` */
  function Tail(queues: map<string, nat>, key: string): Option<nat> {
    if key in queues then Some(queues[key]) else None
  }

  /** `withCanonicalLock` for the job's key at `index`, called by the operation of `parent`. */
  function Lock(s: State, job: nat, index: nat, parent: Option<nat>): State
    requires job < |s.jobs| && index < |s.jobs[job].keys|
  {
    var key := s.jobs[job].keys[index];
    var id := |s.tickets|;
    var previous := Tail(s.queues, key);
    var ticket := Ticket(job, index, key, parent, None, previous, None, Queued, s.delay(job, index));
    s.(tickets := Chained(Called(s.tickets, parent, id), previous, id) + [ticket],
       queues := s.queues[key := id],
       ready := if MayBegin(s.tickets, previous) then s.ready + [Begin(id)] else s.ready)
  }

  function Called(tickets: seq<Ticket>, parent: Option<nat>, id: nat): seq<Ticket> {
    if parent.Some? && parent.value < |tickets| then
      tickets[parent.value := tickets[parent.value].(nested := Some(id))]
    else tickets
  }

  /** `previous.then(...)` registers on the promise found in the map. */
  function Chained(tickets: seq<Ticket>, previous: Option<nat>, id: nat): seq<Ticket> {
    if previous.Some? && previous.value < |tickets| then
      tickets[previous.value := tickets[previous.value].(waiter := Some(id))]
    else tickets
  }

  /** Nothing to wait for: no entry, or one whose promise has resolved. */
  predicate MayBegin(tickets: seq<Ticket>, previous: Option<nat>) {
    previous.None? || (previous.value < |tickets| && Free(tickets[previous.value].phase))
  }

  function AddJob(s: State, keys: seq<string>): State {
    s.(jobs := s.jobs + [Job(keys, if keys == [] then Active(None) else Waiting)])
  }

  /** `withPathLocks`, once its targets are canonical. */
  function Submit(s: State, targets: seq<string>): State {
    var keys := SortedKeys(targets);
    if keys == [] then AddJob(s, keys) else Lock(AddJob(s, keys), |s.jobs|, 0, None)
  }

  function SetOperation(s: State, j: nat, operation: Operation): State
    requires j < |s.jobs|
  {
    s.(jobs := s.jobs[j := s.jobs[j].(operation := operation)])
  }

  /** The operation of job `j` ends, well or badly. */
  function Finish(s: State, j: nat): State
    requires j < |s.jobs| && s.jobs[j].operation.Active?
  {
    var under := s.jobs[j].operation.under;
    SetOperation(s, j, Done(under)).(ready := if under.Some? then s.ready + [Adopt(under.value)] else s.ready)
  }

  function SetPhase(s: State, t: nat, phase: Phase): State
    requires t < |s.tickets|
  {
    s.(tickets := s.tickets[t := s.tickets[t].(phase := phase)])
  }

  /** The ticket's operation is called; the last one is the user's. */
  function Call(s: State, t: nat): State
    requires t < |s.tickets|
  {
    var x := s.tickets[t];
    var called := SetPhase(s, t, Running);
    if Last(s.jobs, x) then SetOperation(called, x.job, Active(Some(t))) else called
  }

  /** Any other locks the next key. */
  function OnBegin(s: State, t: nat): State
    requires t < |s.tickets|
  {
    var x := s.tickets[t];
    if x.job < |s.jobs| && x.index + 1 < |s.jobs[x.job].keys| then Lock(Call(s, t), x.job, x.index + 1, Some(t))
    else Call(s, t)
  }

  function OnAdopt(s: State, t: nat): State
    requires t < |s.tickets|
  {
    var x := s.tickets[t];
    if x.turns > 0 then
      s.(tickets := s.tickets[t := x.(turns := x.turns - 1)], ready := s.ready + [Adopt(t)])
    else
      SetPhase(s, t, Settled).(ready := s.ready + [Settle(t), Clean(t)])
  }

  function OnSettle(s: State, t: nat): State
    requires t < |s.tickets|
  {
    var waiter := s.tickets[t].waiter;
    SetPhase(s, t, Released).(ready := if waiter.Some? then s.ready + [Begin(waiter.value)] else s.ready)
  }

  /** The map entry goes only while it is still this ticket's. */
  function OnClean(s: State, t: nat): State
    requires t < |s.tickets|
  {
    var x := s.tickets[t];
    SetPhase(s, t, Cleaned).(
      queues := if x.key in s.queues && s.queues[x.key] == t then s.queues - {x.key} else s.queues,
      ready := if x.parent.Some? then s.ready + [Adopt(x.parent.value)] else s.ready)
  }

  function Popped(s: State): State
    requires s.ready != []
  {
    s.(ready := s.ready[1..])
  }

  /** The event loop runs the oldest ready reaction. */
  function Turn(s: State): State
    requires s.ready != []
  {
    var r := s.ready[0];
    if r.t >= |s.tickets| then Popped(s)
    else
      match r
      case Begin(t) => OnBegin(Popped(s), t)
      case Adopt(t) => OnAdopt(Popped(s), t)
      case Settle(t) => OnSettle(Popped(s), t)
      case Clean(t) => OnClean(Popped(s), t)
  }

  function Start(delay: (nat, nat) -> nat): State {
    State([], [], map[], [], delay)
  }

  // ---------------------------------------------------------------- the module's mutable state

  /** The `queues` map and the promises behind it, updated in place. */
  class PathLocks {
    var jobs: seq<Job>
    var tickets: seq<Ticket>
    var queues: map<string, nat>
    var ready: seq<Reaction>
    const delay: (nat, nat) -> nat

    function Snapshot(): State
      reads this
    {
      State(jobs, tickets, queues, ready, delay)
    }

    constructor (delay: (nat, nat) -> nat)
      ensures Snapshot() == Start(delay)
    {
      this.delay := delay;
      jobs, tickets, queues, ready := [], [], map[], [];
    }

    method WithCanonicalLock(job: nat, index: nat, parent: Option<nat>)
      requires job < |jobs| && index < |jobs[job].keys|
      modifies this
      ensures Snapshot() == Lock(old(Snapshot()), job, index, parent)
    {
      var key := jobs[job].keys[index];
      var id := |tickets|;
      var previous := if key in queues then Some(queues[key]) else None;
      if MayBegin(tickets, previous) {
        ready := ready + [Begin(id)];
      }
      tickets := Chained(Called(tickets, parent, id), previous, id)
                 + [Ticket(job, index, key, parent, None, previous, None, Queued, delay(job, index))];
      queues := queues[key := id];
    }

    method WithPathLocks(targets: seq<string>)
      modifies this
      ensures Snapshot() == Submit(old(Snapshot()), targets)
    {
      var keys := SortedKeys(targets);
      jobs := jobs + [Job(keys, if keys == [] then Active(None) else Waiting)];
      if keys != [] {
        WithCanonicalLock(|jobs| - 1, 0, None);
      }
    }

    method FinishOperation(job: nat)
      requires job < |jobs| && jobs[job].operation.Active?
      modifies this
      ensures Snapshot() == Finish(old(Snapshot()), job)
    {
      var under := jobs[job].operation.under;
      jobs := jobs[job := jobs[job].(operation := Done(under))];
      if under.Some? {
        ready := ready + [Adopt(under.value)];
      }
    }

    /** The `finally` callback. */
    method CleanUp(t: nat)
      requires t < |tickets|
      modifies this
      ensures Snapshot() == OnClean(old(Snapshot()), t)
    {
      var x := tickets[t];
      tickets := tickets[t := x.(phase := Cleaned)];
      if x.key in queues && queues[x.key] == t {
        queues := queues - {x.key};
      }
      if x.parent.Some? {
        ready := ready + [Adopt(x.parent.value)];
      }
    }

    method CallOperation(t: nat)
      requires t < |tickets|
      modifies this
      ensures Snapshot() == OnBegin(old(Snapshot()), t)
    {
      var x := tickets[t];
      tickets := tickets[t := x.(phase := Running)];
      if Last(jobs, x) {
        jobs := jobs[x.job := jobs[x.job].(operation := Active(Some(t)))];
      } else if x.job < |jobs| && x.index + 1 < |jobs[x.job].keys| {
        WithCanonicalLock(x.job, x.index + 1, Some(t));
      }
    }

    method RunReaction()
      requires ready != []
      modifies this
      ensures Snapshot() == Turn(old(Snapshot()))
    {
      var r := ready[0];
      ready := ready[1..];
      if r.t < |tickets| {
        var x := tickets[r.t];
        match r {
          case Begin(t) =>
            CallOperation(t);
          case Adopt(t) =>
            if x.turns > 0 {
              tickets := tickets[t := x.(turns := x.turns - 1)];
              ready := ready + [Adopt(t)];
            } else {
              tickets := tickets[t := x.(phase := Settled)];
              ready := ready + [Settle(t), Clean(t)];
            }
          case Settle(t) =>
            tickets := tickets[t := x.(phase := Released)];
            if x.waiter.Some? {
              ready := ready + [Begin(x.waiter.value)];
            }
          case Clean(t) =>
            CleanUp(t);
        }
      }
    }
  }

  // ---------------------------------------------------------------- runs

  datatype Event =
    | Submitted(targets: seq<string>)
    | Turned
    | Finished(job: nat)

  predicate Enabled(s: State, e: Event) {
    match e
    case Submitted(_) => true
    case Turned => s.ready != []
    case Finished(j) => j < |s.jobs| && s.jobs[j].operation.Active?
  }

  function Apply(s: State, e: Event): State
    requires Enabled(s, e)
  {
    match e
    case Submitted(targets) => Submit(s, targets)
    case Turned => Turn(s)
    case Finished(j) => Finish(s, j)
  }

  function Run(s: State, events: seq<Event>): Option<State>
    decreases events
  {
    if events == [] then Some(s)
    else if Enabled(s, events[0]) then Run(Apply(s, events[0]), events[1..])
    else None
  }

  /** The targets of the calls of `withPathLocks`, in order. */
  function Requested(events: seq<Event>): seq<seq<string>> {
    if events == [] then []
    else (if events[0].Submitted? then [events[0].targets] else []) + Requested(events[1..])
  }

  /** How often the operation of job `j` ended. */
  function Endings(events: seq<Event>, j: nat): nat {
    if events == [] then 0 else (if events[0] == Finished(j) then 1 else 0) + Endings(events[1..], j)
  }

  ghost predicate Reachable(s: State) {
    exists delay, events :: Run(Start(delay), events) == Some(s)
  }

  ghost predicate SortedJobs(s: State) {
    forall j :: 0 <= j < |s.jobs| ==> Ascending(s.jobs[j].keys)
  }
}
