/** What the path locks promise: exclusion, order, cleanup, and that every job finishes. */
module PathLockResults {
  import opened KeyOrder
  import opened PathLock
  import opened PathLockInvariant
  import opened Wrappers

  /** At most one operation runs per key, and the operations of a key run in the order they queued. */
  lemma FirstComeFirstServed(s: State, t: nat, u: nat)
    requires Reachable(s) && t < u < |s.tickets| && s.tickets[t].key == s.tickets[u].key
    requires !s.tickets[u].phase.Queued?
    ensures s.tickets[t].phase.Cleaned?
  {
    ReachableSound(s);
    assert Linked(s.tickets, u);
    assert AllCleaned(s.tickets, s.tickets[u].key, u);
  }

  /** A running ticket's ancestors still hold every earlier key of its job. */
  lemma {:induction false} HoldsEarlierKeys(s: State, t: nat, i: nat) returns (u: nat)
    requires Inv(s) && t < |s.tickets| && s.tickets[t].phase.Running? && i <= s.tickets[t].index
    ensures u < |s.tickets| && s.tickets[u].job == s.tickets[t].job && s.tickets[u].index == i
    ensures s.tickets[u].phase.Running?
    decreases s.tickets[t].index
  {
    if i == s.tickets[t].index {
      u := t;
    } else {
      assert Placed(s.jobs, s.tickets, t);
      var p := s.tickets[t].parent.value;
      assert Nested(s.jobs, s.tickets, None, p) && Placed(s.jobs, s.tickets, p);
      u := HoldsEarlierKeys(s, p, i);
    }
  }

  /** The keys are the targets asked for, each once and ascending. */
  ghost predicate Asked(keys: seq<string>, targets: seq<string>) {
    Ascending(keys) && forall key :: key in keys <==> key in targets
  }

  ghost predicate AllAsked(jobs: seq<Job>, requests: seq<seq<string>>) {
    |jobs| == |requests| && forall j :: 0 <= j < |jobs| ==> Asked(jobs[j].keys, requests[j])
  }

  lemma StepAsks(s: State, e: Event, requests: seq<seq<string>>)
    requires AllAsked(s.jobs, requests) && Enabled(s, e)
    ensures AllAsked(Apply(s, e).jobs, requests + if e.Submitted? then [e.targets] else [])
  {
    match e
    case Submitted(targets) => SortedKeysCorrect(targets);
    case Turned => TurnKeys(s);
    case Finished(j) =>
  }

  lemma {:induction false} RunAsks(s: State, events: seq<Event>, end: State, requests: seq<seq<string>>)
    requires AllAsked(s.jobs, requests) && Run(s, events) == Some(end)
    ensures AllAsked(end.jobs, requests + Requested(events))
    decreases |events|
  {
    if events == [] {
      assert requests + Requested(events) == requests;
    } else {
      var asked := if events[0].Submitted? then [events[0].targets] else [];
      StepAsks(s, events[0], requests);
      RunAsks(Apply(s, events[0]), events[1..], end, requests + asked);
      Regroup(requests, asked, Requested(events[1..]));
    }
  }

  lemma Regroup(a: seq<seq<string>>, b: seq<seq<string>>, c: seq<seq<string>>)
    ensures (a + b) + c == a + (b + c)
  {
  }

  /** In every run the j-th job locks exactly the targets of the j-th call, each once and in ascending order. */
  lemma JobsLockTheirTargets(delay: (nat, nat) -> nat, events: seq<Event>, s: State, j: nat)
    requires Run(Start(delay), events) == Some(s) && j < |Requested(events)|
    ensures |s.jobs| == |Requested(events)| && Ascending(s.jobs[j].keys)
    ensures forall key :: key in s.jobs[j].keys <==> key in Requested(events)[j]
  {
    RunAsks(Start(delay), events, s, []);
    assert [] + Requested(events) == Requested(events);
    assert Asked(s.jobs[j].keys, Requested(events)[j]);
  }

  /** While a user operation runs, its job holds all its keys. */
  lemma JobHoldsKeys(s: State, j: nat, key: string) returns (u: nat)
    requires Inv(s) && j < |s.jobs| && s.jobs[j].operation.Active? && key in s.jobs[j].keys
    ensures u < |s.tickets| && s.tickets[u].job == j && s.tickets[u].key == key && s.tickets[u].phase.Running?
  {
    var i :| 0 <= i < |s.jobs[j].keys| && s.jobs[j].keys[i] == key;
    var t := s.jobs[j].operation.under.value;
    assert Nested(s.jobs, s.tickets, None, t) && Placed(s.jobs, s.tickets, t);
    u := HoldsEarlierKeys(s, t, i);
    assert Placed(s.jobs, s.tickets, u);
  }

  /** Mutual exclusion on one key. */
  lemma OneRunsPerKey(s: State, t: nat, u: nat)
    requires Reachable(s) && t < |s.tickets| && u < |s.tickets| && s.tickets[t].key == s.tickets[u].key
    requires s.tickets[t].phase.Running? && s.tickets[u].phase.Running?
    ensures t == u
  {
    if t < u {
      FirstComeFirstServed(s, t, u);
    } else if u < t {
      FirstComeFirstServed(s, u, t);
    }
  }

  /** While the operation of the j-th call runs, it holds the lock of every target that call asked for. */
  lemma OperationHoldsKeys(delay: (nat, nat) -> nat, events: seq<Event>, s: State, j: nat, target: string)
      returns (u: nat)
    requires Run(Start(delay), events) == Some(s)
    requires j < |Requested(events)| && target in Requested(events)[j]
    requires j < |s.jobs| && s.jobs[j].operation.Active?
    ensures u < |s.tickets| && s.tickets[u].job == j && s.tickets[u].key == target && s.tickets[u].phase.Running?
  {
    JobsLockTheirTargets(delay, events, s, j);
    ReachableSound(s);
    u := JobHoldsKeys(s, j, target);
  }

  /** Operations that run at the same time were asked for with disjoint targets. */
  lemma OperationsAreDisjoint(delay: (nat, nat) -> nat, events: seq<Event>, s: State, i: nat, j: nat, target: string)
    requires Run(Start(delay), events) == Some(s) && i < |Requested(events)| && j < |Requested(events)| && i != j
    requires |s.jobs| == |Requested(events)| && s.jobs[i].operation.Active? && s.jobs[j].operation.Active?
    ensures !(target in Requested(events)[i] && target in Requested(events)[j])
  {
    if target in Requested(events)[i] && target in Requested(events)[j] {
      var t := OperationHoldsKeys(delay, events, s, i, target);
      var u := OperationHoldsKeys(delay, events, s, j, target);
      OneRunsPerKey(s, t, u);
    }
  }

  predicate Ended(s: State, j: nat) {
    j < |s.jobs| && s.jobs[j].operation.Done?
  }

  /** An operation that has ended stays so, and only its own ending ends it. */
  lemma StepEnds(s: State, e: Event, j: nat)
    requires Inv(s) && Enabled(s, e)
    ensures Ended(Apply(s, e), j) <==> Ended(s, j) || e == Finished(j)
    ensures e == Finished(j) ==> !Ended(s, j)
  {
    match e
    case Submitted(targets) => SubmitEnds(s, targets, j);
    case Turned =>
      HeadDue(s);
      TurnEnds(s, j);
    case Finished(i) =>
  }

  lemma SubmitEnds(s: State, targets: seq<string>, j: nat)
    ensures Ended(Submit(s, targets), j) <==> Ended(s, j)
  {
  }

  lemma TurnEnds(s: State, j: nat)
    requires Inv(s) && s.ready != [] && Due(s.jobs, s.tickets, s.ready[0])
    ensures Ended(Turn(s), j) <==> Ended(s, j)
  {
  }

  lemma {:induction false} RunEnds(s: State, events: seq<Event>, end: State, j: nat)
    requires Inv(s) && SortedJobs(s) && Run(s, events) == Some(end)
    ensures Ended(s, j) ==> Ended(end, j)
    ensures Endings(events, j) == if Ended(end, j) && !Ended(s, j) then 1 else 0
    decreases |events|
  {
    if events != [] {
      ApplyKeeps(s, events[0]);
      StepEnds(s, events[0], j);
      RunEnds(Apply(s, events[0]), events[1..], end, j);
    }
  }

  /** In every run an operation ends at most once, and its call is over exactly when it did. */
  lemma OperationsEndOnce(delay: (nat, nat) -> nat, events: seq<Event>, s: State, j: nat)
    requires Run(Start(delay), events) == Some(s) && j < |s.jobs|
    ensures Endings(events, j) == if s.jobs[j].operation.Done? then 1 else 0
  {
    StartSound(delay);
    RunEnds(Start(delay), events, s, j);
  }

  /**
   * The map holds a key exactly while some call on it has not been cleaned up,
   * and then it holds the newest one: a later call always queues behind it.
   */
  lemma MapHoldsOutstanding(s: State, key: string)
    requires Reachable(s)
    ensures key in s.queues <==>
            exists t :: 0 <= t < |s.tickets| && s.tickets[t].key == key && !s.tickets[t].phase.Cleaned?
    ensures key in s.queues ==>
              var newest := s.queues[key];
              && newest < |s.tickets| && s.tickets[newest].key == key
              && forall u :: newest < u < |s.tickets| ==> s.tickets[u].key != key
  {
    ReachableSound(s);
    if key in s.queues {
      assert NoneBetween(s.tickets, key, s.queues[key], |s.tickets|);
    }
  }

  predicate Idle(s: State) {
    s.ready == [] && forall j :: 0 <= j < |s.jobs| ==> !s.jobs[j].operation.Active?
  }

  ghost function Beyond(s: State, key: string): set<nat> {
    set t: nat | t < |s.tickets| && Less(key, s.tickets[t].key)
  }

  /** With no reaction ready and no operation running, nothing can be waiting: keys ascend along every wait. */
  lemma {:induction false} NothingWaits(s: State, t: nat)
    requires Inv(s) && SortedJobs(s) && Idle(s) && t < |s.tickets|
    ensures s.tickets[t].phase.Cleaned?
    decreases Beyond(s, s.tickets[t].key), t
  {
    var x := s.tickets[t];
    assert Placed(s.jobs, s.tickets, t) && Nested(s.jobs, s.tickets, None, t) && Linked(s.tickets, t);
    assert !Due(s.jobs, s.tickets, Begin(t)) && !Due(s.jobs, s.tickets, Adopt(t)) && !Due(s.jobs, s.tickets, Clean(t));
    if x.phase.Queued? {
      NothingWaits(s, x.previous.value);
    } else if x.phase.Running? && x.nested.Some? {
      var n := x.nested.value;
      assert Placed(s.jobs, s.tickets, n);
      NestedIsBeyond(s, t, n);
      NothingWaits(s, n);
    }
  }

  lemma NestedIsBeyond(s: State, t: nat, n: nat)
    requires SortedJobs(s) && t < |s.tickets| && n < |s.tickets|
    requires Placed(s.jobs, s.tickets, t) && Placed(s.jobs, s.tickets, n) && Nests(s.tickets, t, n)
    ensures Beyond(s, s.tickets[n].key) < Beyond(s, s.tickets[t].key)
  {
    var (a, b) := (s.tickets[t].key, s.tickets[n].key);
    assert Less(a, b);
    forall u | u in Beyond(s, b)
      ensures u in Beyond(s, a)
    {
      LessTransitive(a, b, s.tickets[u].key);
    }
    LessTotal(b, b);
    assert n in Beyond(s, a) && n !in Beyond(s, b);
  }

  /** Every job is done, every ticket cleaned up and the map is empty. */
  ghost predicate AllOver(s: State) {
    && (forall t :: 0 <= t < |s.tickets| ==> s.tickets[t].phase.Cleaned?)
    && (forall j :: 0 <= j < |s.jobs| ==> s.jobs[j].operation.Done?)
    && s.queues == map[]
  }

  /** No reachable state is deadlocked: when nothing can happen, everything is over. */
  lemma DeadlockFree(s: State)
    requires Reachable(s) && Idle(s)
    ensures AllOver(s)
  {
    ReachableSound(s);
    IdleIsOver(s);
  }

  lemma IdleIsOver(s: State)
    requires Inv(s) && SortedJobs(s) && Idle(s)
    ensures AllOver(s)
  {
    forall t | 0 <= t < |s.tickets|
      ensures s.tickets[t].phase.Cleaned?
    {
      NothingWaits(s, t);
    }
    assert forall k <- s.queues :: false;
    forall j | 0 <= j < |s.jobs|
      ensures s.jobs[j].operation.Done?
    {
      JobDone(s, j);
    }
  }

  lemma JobDone(s: State, j: nat)
    requires Inv(s) && Idle(s) && j < |s.jobs|
    requires forall t :: 0 <= t < |s.tickets| ==> s.tickets[t].phase.Cleaned?
    ensures s.jobs[j].operation.Done?
  {
    if s.jobs[j].operation.Waiting? {
      var t :| 0 <= t < |s.tickets| && s.tickets[t].job == j;
      assert Placed(s.jobs, s.tickets, t);
      CleanedJobOver(s, t);
    }
  }

  lemma {:induction false} CleanedJobOver(s: State, t: nat)
    requires Inv(s) && t < |s.tickets| && s.tickets[t].phase.Cleaned? && s.tickets[t].job < |s.jobs|
    ensures s.jobs[s.tickets[t].job].operation.Done?
    decreases |s.jobs[s.tickets[t].job].keys| - s.tickets[t].index
  {
    assert Placed(s.jobs, s.tickets, t) && Nested(s.jobs, s.tickets, None, t);
    if !Last(s.jobs, s.tickets[t]) {
      assert Placed(s.jobs, s.tickets, s.tickets[t].nested.value);
      CleanedJobOver(s, s.tickets[t].nested.value);
    }
  }

  // ---------------------------------------------------------------- termination

  /** Steps left to the ticket itself. */
  function Ahead(x: Ticket): nat {
    match x.phase
    case Queued => x.turns + 5
    case Running => x.turns + 4
    case Settled => 3
    case Released => 2
    case Cleaned => 1
  }

  /** Keys the job has yet to lock through this ticket. */
  function KeysAhead(jobs: seq<Job>, x: Ticket): nat {
    if x.nested.None? && x.job < |jobs| && x.index < |jobs[x.job].keys| then |jobs[x.job].keys| - 1 - x.index else 0
  }

  /** Steps the job's next `n` keys take, from `index` on. */
  function Nestings(delay: (nat, nat) -> nat, job: nat, index: nat, n: nat): nat
    decreases n
  {
    if n == 0 then 0 else delay(job, index) + 6 + Nestings(delay, job, index + 1, n - 1)
  }

  function Weight(jobs: seq<Job>, delay: (nat, nat) -> nat, x: Ticket): nat {
    Ahead(x) + Nestings(delay, x.job, x.index + 1, KeysAhead(jobs, x))
  }

  function TicketsLeft(jobs: seq<Job>, delay: (nat, nat) -> nat, ts: seq<Ticket>): nat {
    if ts == [] then 0
    else TicketsLeft(jobs, delay, ts[..|ts| - 1]) + Weight(jobs, delay, ts[|ts| - 1])
  }

  function OperationsLeft(jobs: seq<Job>): nat {
    if jobs == [] then 0
    else OperationsLeft(jobs[..|jobs| - 1]) + if jobs[|jobs| - 1].operation.Done? then 0 else 1
  }

  function Measure(s: State): nat {
    TicketsLeft(s.jobs, s.delay, s.tickets) + OperationsLeft(s.jobs)
  }

  lemma {:induction false} LeftUpdate(jobs: seq<Job>, delay: (nat, nat) -> nat, ts: seq<Ticket>, t: nat, x: Ticket)
    requires t < |ts|
    ensures TicketsLeft(jobs, delay, ts[t := x])
            == TicketsLeft(jobs, delay, ts) - Weight(jobs, delay, ts[t]) + Weight(jobs, delay, x)
    decreases |ts|
  {
    var ts' := ts[t := x];
    var n := |ts| - 1;
    if t == n {
      assert ts'[..n] == ts[..n];
    } else {
      LeftUpdate(jobs, delay, ts[..n], t, x);
      assert ts'[..n] == ts[..n][t := x];
    }
  }

  lemma {:induction false} LeftSameKeys(jobs: seq<Job>, jobs': seq<Job>, delay: (nat, nat) -> nat, ts: seq<Ticket>)
    requires |jobs'| == |jobs| && forall j :: 0 <= j < |jobs| ==> jobs'[j].keys == jobs[j].keys
    ensures TicketsLeft(jobs', delay, ts) == TicketsLeft(jobs, delay, ts)
    decreases |ts|
  {
    if ts != [] {
      LeftSameKeys(jobs, jobs', delay, ts[..|ts| - 1]);
    }
  }

  lemma {:induction false} OperationsUpdate(jobs: seq<Job>, j: nat, job: Job)
    requires j < |jobs|
    ensures OperationsLeft(jobs[j := job]) ==
            OperationsLeft(jobs) - (if jobs[j].operation.Done? then 0 else 1) + (if job.operation.Done? then 0 else 1)
    decreases |jobs|
  {
    var jobs' := jobs[j := job];
    var n := |jobs| - 1;
    if j == n {
      assert jobs'[..n] == jobs[..n];
    } else {
      OperationsUpdate(jobs[..n], j, job);
      assert jobs'[..n] == jobs[..n][j := job];
    }
  }

  lemma PhaseDescends(s: State, t: nat, x: Ticket)
    requires t < |s.tickets| && Weight(s.jobs, s.delay, x) < Weight(s.jobs, s.delay, s.tickets[t])
    ensures TicketsLeft(s.jobs, s.delay, s.tickets[t := x]) < TicketsLeft(s.jobs, s.delay, s.tickets)
  {
    LeftUpdate(s.jobs, s.delay, s.tickets, t, x);
  }

  lemma LockWeighs(s: State, job: nat, index: nat, t: nat)
    requires t < |s.tickets| && job < |s.jobs| && index < |s.jobs[job].keys|
    requires s.tickets[t].job == job && s.tickets[t].index + 1 == index && s.tickets[t].nested.None?
    ensures Measure(Lock(s, job, index, Some(t))) < Measure(s)
  {
    var (jobs, delay, ts, id) := (s.jobs, s.delay, s.tickets, |s.tickets|);
    var key := jobs[job].keys[index];
    var previous := Tail(s.queues, key);
    var nested := ts[t].(nested := Some(id));
    var x := Ticket(job, index, key, Some(t), None, previous, None, Queued, delay(job, index));
    var called := ts[t := nested];
    LeftUpdate(jobs, delay, ts, t, nested);
    ChainedWeighs(jobs, delay, called, previous, id);
    AppendWeighs(jobs, delay, Chained(called, previous, id), x);
    NestingWeighs(jobs, delay, ts[t], nested, x);
    assert Lock(s, job, index, Some(t)).tickets == Chained(called, previous, id) + [x];
  }

  lemma NestingWeighs(jobs: seq<Job>, delay: (nat, nat) -> nat, t: Ticket, nested: Ticket, x: Ticket)
    requires t.job == x.job && x.job < |jobs| && t.index + 1 == x.index < |jobs[x.job].keys|
    requires t.nested.None? && x.nested.None? && nested == t.(nested := nested.nested) && nested.nested.Some?
    requires x.phase.Queued? && x.turns == delay(x.job, x.index)
    ensures Weight(jobs, delay, nested) + Weight(jobs, delay, x) < Weight(jobs, delay, t)
  {
  }

  lemma ChainedWeighs(jobs: seq<Job>, delay: (nat, nat) -> nat, ts: seq<Ticket>, previous: Option<nat>, id: nat)
    ensures TicketsLeft(jobs, delay, Chained(ts, previous, id)) == TicketsLeft(jobs, delay, ts)
  {
    if previous.Some? && previous.value < |ts| {
      LeftUpdate(jobs, delay, ts, previous.value, ts[previous.value].(waiter := Some(id)));
    }
  }

  lemma AppendWeighs(jobs: seq<Job>, delay: (nat, nat) -> nat, ts: seq<Ticket>, x: Ticket)
    ensures TicketsLeft(jobs, delay, ts + [x]) == TicketsLeft(jobs, delay, ts) + Weight(jobs, delay, x)
  {
    assert (ts + [x])[..|ts|] == ts;
  }

  /** Every step but a new call leaves less to do. */
  lemma StepDescends(s: State, e: Event)
    requires Inv(s) && Enabled(s, e) && !e.Submitted?
    ensures Measure(Apply(s, e)) < Measure(s)
  {
    match e
    case Finished(j) => FinishDescends(s, j);
    case Turned =>
      HeadDue(s);
      if s.ready[0].Begin? {
        BeginDescends(s, s.ready[0].t);
      } else {
        ReactionDescends(s);
      }
  }

  lemma FinishDescends(s: State, j: nat)
    requires j < |s.jobs| && s.jobs[j].operation.Active?
    ensures Measure(Finish(s, j)) < Measure(s)
  {
    var s' := Finish(s, j);
    LeftSameKeys(s.jobs, s'.jobs, s.delay, s.tickets);
    OperationsUpdate(s.jobs, j, s'.jobs[j]);
  }

  lemma ReactionDescends(s: State)
    requires s.ready != [] && Due(s.jobs, s.tickets, s.ready[0]) && !s.ready[0].Begin?
    ensures Measure(Turn(s)) < Measure(s)
  {
    var t := s.ready[0].t;
    PhaseDescends(s, t, Turn(s).tickets[t]);
  }

  lemma CallDescends(s: State, t: nat)
    requires t < |s.tickets| && s.tickets[t].phase.Queued? && s.tickets[t].job < |s.jobs|
    requires s.jobs[s.tickets[t].job].operation.Waiting?
    ensures Measure(Call(s, t)) < Measure(s)
  {
    var x := s.tickets[t];
    var called := Call(s, t);
    LeftUpdate(s.jobs, s.delay, s.tickets, t, x.(phase := Running));
    LeftSameKeys(s.jobs, called.jobs, s.delay, called.tickets);
    if Last(s.jobs, x) {
      OperationsUpdate(s.jobs, x.job, called.jobs[x.job]);
    }
  }

  lemma OnBeginDescends(s: State, t: nat)
    requires t < |s.tickets| && s.tickets[t].phase.Queued? && s.tickets[t].job < |s.jobs|
    requires s.jobs[s.tickets[t].job].operation.Waiting? && s.tickets[t].nested.None?
    ensures Measure(OnBegin(s, t)) < Measure(s)
  {
    CallDescends(s, t);
    var (job, index) := (s.tickets[t].job, s.tickets[t].index + 1);
    if index < |s.jobs[job].keys| {
      NextLockDescends(s, t, job, index, Call(s, t));
    } else {
      assert OnBegin(s, t) == Call(s, t);
    }
  }

  lemma NextLockDescends(s: State, t: nat, job: nat, index: nat, s': State)
    requires t < |s.tickets| && s.tickets[t].nested.None? && s' == Call(s, t) && Measure(s') < Measure(s)
    requires job == s.tickets[t].job && job < |s.jobs| && index == s.tickets[t].index + 1 && index < |s.jobs[job].keys|
    ensures Measure(OnBegin(s, t)) < Measure(s)
  {
    CallThenLock(s, t, job, index, s');
    LockWeighs(s', job, index, t);
  }

  lemma CallThenLock(s: State, t: nat, job: nat, index: nat, s': State)
    requires t < |s.tickets| && s' == Call(s, t)
    requires job == s.tickets[t].job && job < |s.jobs| && index == s.tickets[t].index + 1 && index < |s.jobs[job].keys|
    ensures |s'.tickets| == |s.tickets| && s'.tickets[t] == s.tickets[t].(phase := Running) && s'.jobs == s.jobs
    ensures OnBegin(s, t) == Lock(s', job, index, Some(t))
  {
  }

  lemma BeginDescends(s: State, t: nat)
    requires Inv(s) && s.ready != [] && s.ready[0] == Begin(t)
    ensures Measure(Turn(s)) < Measure(s)
  {
    CalledFrame(s, t);
    OnBeginDescends(Popped(s), t);
  }

  /** Once no more calls arrive, every run is over after at most `Measure(s)` steps. */
  lemma EveryRunEnds(s: State, events: seq<Event>)
    requires Reachable(s) && Run(s, events).Some? && forall e <- events :: !e.Submitted?
    ensures |events| <= Measure(s)
  {
    ReachableSound(s);
    RunDescends(s, events);
  }

  lemma {:induction false} RunDescends(s: State, events: seq<Event>)
    requires Inv(s) && SortedJobs(s) && Run(s, events).Some? && forall e <- events :: !e.Submitted?
    ensures |events| + Measure(Run(s, events).value) <= Measure(s)
    decreases events
  {
    if events != [] {
      StepDescends(s, events[0]);
      ApplyKeeps(s, events[0]);
      RunDescends(Apply(s, events[0]), events[1..]);
    }
  }

  /** From any reachable state, running on without new calls finishes every job. */
  lemma EveryJobFinishes(s: State) returns (events: seq<Event>)
    requires Reachable(s)
    ensures Run(s, events).Some? && AllOver(Run(s, events).value)
    ensures forall e <- events :: !e.Submitted?
  {
    ReachableSound(s);
    events := RunOut(s);
    RunKeeps(s, events);
    IdleIsOver(Run(s, events).value);
  }

  lemma {:induction false} RunOut(s: State) returns (events: seq<Event>)
    requires Inv(s) && SortedJobs(s)
    ensures Run(s, events).Some? && Idle(Run(s, events).value)
    ensures forall e <- events :: !e.Submitted?
    decreases Measure(s)
  {
    if Idle(s) {
      events := [];
    } else {
      var e := if s.ready != [] then Turned
               else var j :| 0 <= j < |s.jobs| && s.jobs[j].operation.Active?; Finished(j);
      StepDescends(s, e);
      ApplyKeeps(s, e);
      var rest := RunOut(Apply(s, e));
      events := [e] + rest;
    }
  }
}
