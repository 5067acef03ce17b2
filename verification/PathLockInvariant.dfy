/** The invariant of the path locks, and that every step keeps it. */
module PathLockInvariant {
  import opened KeyOrder
  import opened PathLock
  import opened Wrappers

  // ---------------------------------------------------------------- invariant

  /** `t`'s operation took `n`. */
  predicate Nests(tickets: seq<Ticket>, t: nat, n: nat) {
    t < |tickets| && n < |tickets| && t != n
    && tickets[n].parent == Some(t) && tickets[t].nested == Some(n)
    && tickets[n].job == tickets[t].job && tickets[n].index == tickets[t].index + 1
  }

  predicate Placed(jobs: seq<Job>, tickets: seq<Ticket>, t: nat)
    requires t < |tickets|
  {
    var x := tickets[t];
    && x.job < |jobs| && x.index < |jobs[x.job].keys| && x.key == jobs[x.job].keys[x.index]
    && (if x.parent.Some? then Nests(tickets, x.parent.value, t) else x.index == 0)
    && (x.nested.Some? ==> Nests(tickets, t, x.nested.value))
  }

  /** Tickets carry their job's keys in order, at most one per key, each taken by the one before it. */
  ghost predicate Shape(jobs: seq<Job>, tickets: seq<Ticket>) {
    && (forall t :: 0 <= t < |tickets| ==> Placed(jobs, tickets, t))
    && (forall t, u :: 0 <= t < u < |tickets| ==>
          tickets[t].job != tickets[u].job || tickets[t].index != tickets[u].index)
  }

  /** What the operation of `x` returned has settled. */
  predicate InnerOver(jobs: seq<Job>, tickets: seq<Ticket>, x: Ticket) {
    if Last(jobs, x) then jobs[x.job].operation.Done?
    else x.nested.Some? && x.nested.value < |tickets| && tickets[x.nested.value].phase.Cleaned?
  }

  predicate Nested(jobs: seq<Job>, tickets: seq<Ticket>, owing: Option<nat>, t: nat)
    requires t < |tickets|
  {
    var x := tickets[t];
    && (x.nested.Some? <==> !x.phase.Queued? && !Last(jobs, x) && owing != Some(t))
    && (Over(x.phase) ==> InnerOver(jobs, tickets, x))
  }

  /** A called ticket has taken the next one, except `owing`, which is about to; it ends after that. */
  ghost predicate Nesting(jobs: seq<Job>, tickets: seq<Ticket>, owing: Option<nat>) {
    forall t :: 0 <= t < |tickets| ==> Nested(jobs, tickets, owing, t)
  }

  /** The user's operation runs exactly while its last ticket has been called and it has not ended. */
  ghost predicate Operations(jobs: seq<Job>, tickets: seq<Ticket>) {
    && (forall t :: 0 <= t < |tickets| && Last(jobs, tickets[t]) ==>
          var operation := jobs[tickets[t].job].operation;
          if tickets[t].phase.Queued? then operation.Waiting? else !operation.Waiting? && operation.under == Some(t))
    && (forall j :: 0 <= j < |jobs| ==>
          if jobs[j].operation.Waiting? then jobs[j].keys != []
          else if jobs[j].operation.under.None? then jobs[j].keys == []
          else
            var t := jobs[j].operation.under.value;
            t < |tickets| && tickets[t].job == j && Last(jobs, tickets[t]))
  }

  /** Every job with keys has taken its first ticket, except `owing`. */
  ghost predicate Rooted(jobs: seq<Job>, tickets: seq<Ticket>, owing: Option<nat>) {
    forall j :: 0 <= j < |jobs| && jobs[j].keys != [] && owing != Some(j) ==>
      exists t :: 0 <= t < |tickets| && tickets[t].job == j
  }

  ghost predicate AllCleaned(tickets: seq<Ticket>, key: string, before: nat) {
    forall u :: 0 <= u < |tickets| && u < before && tickets[u].key == key ==> tickets[u].phase.Cleaned?
  }

  ghost predicate NoneBetween(tickets: seq<Ticket>, key: string, lo: nat, hi: nat) {
    forall u :: 0 <= u < |tickets| && lo < u < hi ==> tickets[u].key != key
  }

  ghost predicate Linked(tickets: seq<Ticket>, t: nat)
    requires t < |tickets|
  {
    var x := tickets[t];
    && (x.previous.Some? ==>
          var p := x.previous.value;
          p < t && tickets[p].key == x.key && tickets[p].waiter == Some(t) && NoneBetween(tickets, x.key, p, t))
    && (x.waiter.Some? ==> x.waiter.value < |tickets| && tickets[x.waiter.value].previous == Some(t))
    && (x.previous.None? || !x.phase.Queued? ==> AllCleaned(tickets, x.key, t))
  }

  /** Tickets on one key form a chain in the order they were taken. */
  ghost predicate Chain(tickets: seq<Ticket>) {
    forall t :: 0 <= t < |tickets| ==> Linked(tickets, t)
  }

  /** A map entry is the newest ticket of its key, present until that ticket is cleaned up. */
  ghost predicate Tails(tickets: seq<Ticket>, queues: map<string, nat>) {
    && (forall k <- queues ::
          var t := queues[k];
          && t < |tickets| && tickets[t].key == k && !tickets[t].phase.Cleaned? && tickets[t].waiter.None?
          && NoneBetween(tickets, k, t, |tickets|))
    && (forall t :: 0 <= t < |tickets| && !tickets[t].phase.Cleaned? ==> tickets[t].key in queues)
  }

  predicate Due(jobs: seq<Job>, tickets: seq<Ticket>, r: Reaction) {
    r.t < |tickets| &&
    var x := tickets[r.t];
    match r
    case Begin(_) => x.phase.Queued? && MayBegin(tickets, x.previous)
    case Adopt(_) => x.phase.Running? && InnerOver(jobs, tickets, x)
    case Settle(_) => x.phase.Settled?
    case Clean(_) => x.phase.Settled? || x.phase.Released?
  }

  /** Exactly the due reactions are ready, each once. */
  ghost predicate Ready(jobs: seq<Job>, tickets: seq<Ticket>, ready: seq<Reaction>) {
    && (forall r: Reaction :: r in ready <==> Due(jobs, tickets, r))
    && Once(ready)
  }

  ghost predicate Once(ready: seq<Reaction>) {
    forall i, j :: 0 <= i < j < |ready| ==> ready[i] != ready[j]
  }

  /** Reactions to one promise run in the order of registration, and what they make ready runs later. */
  ghost predicate Order(tickets: seq<Ticket>, ready: seq<Reaction>) {
    forall i, j :: 0 <= i < |ready| && 0 <= j < |ready| && ready[j].Clean? ==>
      && (ready[i] == Settle(ready[j].t) ==> i < j)
      && (ready[i].Begin? && ready[i].t < |tickets| && tickets[ready[i].t].previous == Some(ready[j].t) ==> j < i)
  }

  /** The sound states, in which the ticket or job named has still to lock something. */
  ghost function Owing(ticket: Option<nat>, job: Option<nat>): iset<State> {
    iset s: State |
      && Shape(s.jobs, s.tickets) && Nesting(s.jobs, s.tickets, ticket)
      && Operations(s.jobs, s.tickets) && Rooted(s.jobs, s.tickets, job)
      && Chain(s.tickets) && Tails(s.tickets, s.queues)
      && Ready(s.jobs, s.tickets, s.ready) && Order(s.tickets, s.ready)
  }

  ghost predicate InvOwing(s: State, ticket: Option<nat>, job: Option<nat>) {
    s in Owing(ticket, job)
  }

  ghost predicate Inv(s: State) {
    InvOwing(s, None, None)
  }

  // ---------------------------------------------------------------- every step keeps it

  /** The tickets after `Lock`: a new one at the end, named by its parent and its predecessor. */
  ghost predicate Extended(ts: seq<Ticket>, ts': seq<Ticket>, x: Ticket, parent: Option<nat>, previous: Option<nat>) {
    && |ts'| == |ts| + 1 && ts'[|ts|] == x
    && forall t :: 0 <= t < |ts| ==>
         ts'[t] == ts[t].(
           nested := if parent == Some(t) then Some(|ts|) else ts[t].nested,
           waiter := if previous == Some(t) then Some(|ts|) else ts[t].waiter)
  }

  lemma LockTickets(s: State, job: nat, index: nat, parent: Option<nat>)
    requires job < |s.jobs| && index < |s.jobs[job].keys|
    ensures var key := s.jobs[job].keys[index];
            var previous := Tail(s.queues, key);
            var x := Ticket(job, index, key, parent, None, previous, None, Queued, s.delay(job, index));
            Extended(s.tickets, Lock(s, job, index, parent).tickets, x, parent, previous)
  {
  }

  lemma ExtendedChain(ts: seq<Ticket>, ts': seq<Ticket>, queues: map<string, nat>, x: Ticket, parent: Option<nat>)
    requires Chain(ts) && Tails(ts, queues)
    requires x.phase.Queued? && x.waiter.None? && x.previous == Tail(queues, x.key)
    requires Extended(ts, ts', x, parent, x.previous)
    ensures Chain(ts')
  {
    var id := |ts|;
    forall t | 0 <= t < |ts'|
      ensures Linked(ts', t)
    {
      if t < id {
        assert Linked(ts, t);
      }
    }
  }

  lemma ExtendedTails(ts: seq<Ticket>, ts': seq<Ticket>, queues: map<string, nat>, x: Ticket, parent: Option<nat>)
    requires Tails(ts, queues)
    requires x.phase.Queued? && x.waiter.None? && x.previous == Tail(queues, x.key)
    requires Extended(ts, ts', x, parent, x.previous)
    ensures Tails(ts', queues[x.key := |ts|])
  {
    var queues' := queues[x.key := |ts|];
    forall k <- queues'
      ensures var t := queues'[k];
              && t < |ts'| && ts'[t].key == k && !ts'[t].phase.Cleaned? && ts'[t].waiter.None?
              && NoneBetween(ts', k, t, |ts'|)
    {
      if k != x.key {
        assert k in queues;
      }
    }
  }

  lemma UniqueIndex(jobs: seq<Job>, ts: seq<Ticket>, x: Ticket, t: nat)
    requires Shape(jobs, ts) && t < |ts|
    requires if x.parent.None? then ts[t].job != x.job else Calls(ts, x.parent.value, x)
    ensures ts[t].job != x.job || ts[t].index != x.index
  {
    assert Placed(jobs, ts, t);
    if x.parent.Some? && ts[t].parent.Some? {
      var (p, q) := (ts[t].parent.value, x.parent.value);
      assert p < q || p == q || q < p;
    }
  }

  lemma ExtendedPlaced(jobs: seq<Job>, ts: seq<Ticket>, ts': seq<Ticket>, x: Ticket, t: nat)
    requires Extended(ts, ts', x, x.parent, x.previous) && t < |ts| && Placed(jobs, ts, t)
    requires x.parent == Some(t) ==> Calls(ts, t, x)
    requires ts[t].parent.Some? && ts[t].parent == x.parent ==> ts[ts[t].parent.value].nested.None?
    ensures Placed(jobs, ts', t)
  {
    if x.parent == Some(t) {
      assert Nests(ts', t, |ts|);
    }
  }

  lemma ExtendedShape(jobs: seq<Job>, ts: seq<Ticket>, ts': seq<Ticket>, x: Ticket)
    requires Shape(jobs, ts) && Extended(ts, ts', x, x.parent, x.previous)
    requires x.job < |jobs| && x.index < |jobs[x.job].keys| && x.key == jobs[x.job].keys[x.index] && x.nested.None?
    requires if x.parent.None? then x.index == 0 && forall t :: 0 <= t < |ts| ==> ts[t].job != x.job
             else Calls(ts, x.parent.value, x)
    ensures Shape(jobs, ts')
  {
    forall t | 0 <= t < |ts'|
      ensures Placed(jobs, ts', t)
    {
      if t < |ts| {
        assert Placed(jobs, ts, t);
        ExtendedPlaced(jobs, ts, ts', x, t);
      }
    }
    ExtendedUnique(jobs, ts, ts', x);
  }

  lemma ExtendedUnique(jobs: seq<Job>, ts: seq<Ticket>, ts': seq<Ticket>, x: Ticket)
    requires Shape(jobs, ts) && Extended(ts, ts', x, x.parent, x.previous)
    requires if x.parent.None? then forall t :: 0 <= t < |ts| ==> ts[t].job != x.job else Calls(ts, x.parent.value, x)
    ensures forall t, u :: 0 <= t < u < |ts'| ==> ts'[t].job != ts'[u].job || ts'[t].index != ts'[u].index
  {
    forall t, u | 0 <= t < u < |ts'|
      ensures ts'[t].job != ts'[u].job || ts'[t].index != ts'[u].index
    {
      UniqueIndex(jobs, ts, x, t);
    }
  }

  /** Ticket `p` is running, has called for nothing yet, and `x` is next on its job's list. */
  predicate Calls(ts: seq<Ticket>, p: nat, x: Ticket) {
    p < |ts| && ts[p].phase.Running? && ts[p].nested.None? && ts[p].job == x.job && ts[p].index + 1 == x.index
  }

  lemma ExtendedNesting(jobs: seq<Job>, ts: seq<Ticket>, ts': seq<Ticket>, x: Ticket)
    requires Nesting(jobs, ts, x.parent) && Extended(ts, ts', x, x.parent, x.previous)
    requires forall t :: 0 <= t < |ts| ==> Placed(jobs, ts, t)
    requires x.phase.Queued? && x.nested.None? && x.job < |jobs| && x.index < |jobs[x.job].keys|
    requires x.parent.Some? ==> Calls(ts, x.parent.value, x)
    ensures Nesting(jobs, ts', None)
  {
    forall t | 0 <= t < |ts'|
      ensures Nested(jobs, ts', None, t)
    {
      if t < |ts| {
        assert Nested(jobs, ts, x.parent, t) && Placed(jobs, ts, t);
        assert Last(jobs, ts'[t]) == Last(jobs, ts[t]);
      }
    }
  }

  lemma ExtendedOperations(jobs: seq<Job>, ts: seq<Ticket>, ts': seq<Ticket>, x: Ticket)
    requires Operations(jobs, ts) && Extended(ts, ts', x, x.parent, x.previous)
    requires x.phase.Queued? && x.job < |jobs| && jobs[x.job].operation.Waiting?
    ensures Operations(jobs, ts')
  {
    forall t | 0 <= t < |ts|
      ensures Last(jobs, ts'[t]) == Last(jobs, ts[t])
    {
    }
  }

  lemma ExtendedRooted(jobs: seq<Job>, ts: seq<Ticket>, ts': seq<Ticket>, x: Ticket)
    requires Rooted(jobs, ts, if x.parent.None? then Some(x.job) else None)
    requires Extended(ts, ts', x, x.parent, x.previous)
    ensures Rooted(jobs, ts', None)
  {
    forall j | 0 <= j < |jobs| && jobs[j].keys != []
      ensures exists t :: 0 <= t < |ts'| && ts'[t].job == j
    {
      if j == x.job {
        assert ts'[|ts|].job == j;
      } else {
        var t :| 0 <= t < |ts| && ts[t].job == j;
        assert ts'[t].job == j;
      }
    }
  }

  lemma ExtendedReady(jobs: seq<Job>, ts: seq<Ticket>, ts': seq<Ticket>, x: Ticket, ready: seq<Reaction>,
                      ready': seq<Reaction>)
    requires Ready(jobs, ts, ready) && Extended(ts, ts', x, x.parent, x.previous)
    requires forall t :: 0 <= t < |ts| ==> Backward(ts, t)
    requires x.phase.Queued? && x.nested.None? && (x.previous.Some? ==> x.previous.value < |ts|)
    requires x.parent.Some? ==> Calls(ts, x.parent.value, x) && !Last(jobs, ts[x.parent.value])
    requires ready' == if MayBegin(ts, x.previous) then ready + [Begin(|ts|)] else ready
    ensures Ready(jobs, ts', ready')
  {
    var id := |ts|;
    assert Due(jobs, ts', Begin(id)) <==> Begin(id) in ready' by {
      assert !Due(jobs, ts, Begin(id));
    }
    forall r: Reaction | r != Begin(id)
      ensures Due(jobs, ts', r) <==> r in ready'
    {
      assert Due(jobs, ts', r) <==> Due(jobs, ts, r) by {
        if r.t < id {
          assert Backward(ts, r.t);
          assert Last(jobs, ts'[r.t]) == Last(jobs, ts[r.t]);
        }
      }
    }
    assert !Due(jobs, ts, Begin(id));
  }

  lemma ExtendedOrder(jobs: seq<Job>, ts: seq<Ticket>, ts': seq<Ticket>, x: Ticket, ready: seq<Reaction>,
                      ready': seq<Reaction>)
    requires Order(ts, ready) && (forall r <- ready :: r.t < |ts|) && Extended(ts, ts', x, x.parent, x.previous)
    requires ready' == ready || ready' == ready + [Begin(|ts|)]
    ensures Order(ts', ready')
  {
    forall i, j | 0 <= i < |ready'| && 0 <= j < |ready'| && ready'[j].Clean?
      ensures ready'[i] == Settle(ready'[j].t) ==> i < j
      ensures ready'[i].Begin? && ready'[i].t < |ts'| && ts'[ready'[i].t].previous == Some(ready'[j].t) ==> j < i
    {
      if i < |ready| {
        assert ready[i] in ready;
      }
    }
  }

  /** `parent`, or the job itself when there is none, may lock the key at `index`. */
  ghost predicate MayLock(s: State, job: nat, index: nat, parent: Option<nat>) {
    && job < |s.jobs| && index < |s.jobs[job].keys| && s.jobs[job].operation.Waiting?
    && if parent.None? then index == 0 && forall t :: 0 <= t < |s.tickets| ==> s.tickets[t].job != job
       else parent.value < |s.tickets| && s.tickets[parent.value].phase.Running? && s.tickets[parent.value].nested.None?
            && s.tickets[parent.value].job == job && s.tickets[parent.value].index + 1 == index
  }

  /** References to other tickets stay inside the table. */
  predicate Backward(ts: seq<Ticket>, t: nat)
    requires t < |ts|
  {
    && (ts[t].nested.Some? ==> ts[t].nested.value < |ts|)
    && (ts[t].previous.Some? ==> ts[t].previous.value < |ts|)
  }

  lemma AllBackward(jobs: seq<Job>, ts: seq<Ticket>)
    requires Shape(jobs, ts) && Chain(ts)
    ensures forall t :: 0 <= t < |ts| ==> Backward(ts, t)
  {
    forall t | 0 <= t < |ts|
      ensures Backward(ts, t)
    {
      assert Placed(jobs, ts, t) && Linked(ts, t);
    }
  }

  lemma LockKeepsJobs(s: State, job: nat, index: nat, parent: Option<nat>)
    requires MayLock(s, job, index, parent)
    requires Shape(s.jobs, s.tickets) && Nesting(s.jobs, s.tickets, parent)
    requires Operations(s.jobs, s.tickets) && Rooted(s.jobs, s.tickets, if parent.None? then Some(job) else None)
    ensures var s' := Lock(s, job, index, parent);
            && Shape(s'.jobs, s'.tickets) && Nesting(s'.jobs, s'.tickets, None)
            && Operations(s'.jobs, s'.tickets) && Rooted(s'.jobs, s'.tickets, None)
  {
    var s' := Lock(s, job, index, parent);
    LockTickets(s, job, index, parent);
    assert forall t :: 0 <= t < |s.tickets| ==> Placed(s.jobs, s.tickets, t);
    var x := s'.tickets[|s.tickets|];
    ExtendedShape(s.jobs, s.tickets, s'.tickets, x);
    ExtendedNesting(s.jobs, s.tickets, s'.tickets, x);
    ExtendedOperations(s.jobs, s.tickets, s'.tickets, x);
    ExtendedRooted(s.jobs, s.tickets, s'.tickets, x);
  }

  lemma LockKeepsQueues(s: State, job: nat, index: nat, parent: Option<nat>)
    requires MayLock(s, job, index, parent)
    requires Chain(s.tickets) && Tails(s.tickets, s.queues)
    ensures var s' := Lock(s, job, index, parent);
            Chain(s'.tickets) && Tails(s'.tickets, s'.queues)
  {
    var s' := Lock(s, job, index, parent);
    LockTickets(s, job, index, parent);
    var x := s'.tickets[|s.tickets|];
    ExtendedChain(s.tickets, s'.tickets, s.queues, x, parent);
    ExtendedTails(s.tickets, s'.tickets, s.queues, x, parent);
  }

  lemma LockKeepsReady(s: State, job: nat, index: nat, parent: Option<nat>)
    requires MayLock(s, job, index, parent)
    requires (forall t :: 0 <= t < |s.tickets| ==> Backward(s.tickets, t)) && Tails(s.tickets, s.queues)
    requires Ready(s.jobs, s.tickets, s.ready) && Order(s.tickets, s.ready)
    ensures var s' := Lock(s, job, index, parent);
            Ready(s'.jobs, s'.tickets, s'.ready) && Order(s'.tickets, s'.ready)
  {
    var s' := Lock(s, job, index, parent);
    LockTickets(s, job, index, parent);
    var x := s'.tickets[|s.tickets|];
    ExtendedReady(s.jobs, s.tickets, s'.tickets, x, s.ready, s'.ready);
    ExtendedOrder(s.jobs, s.tickets, s'.tickets, x, s.ready, s'.ready);
  }

  lemma LockKeeps(s: State, job: nat, index: nat, parent: Option<nat>)
    requires InvOwing(s, parent, if parent.None? then Some(job) else None) && MayLock(s, job, index, parent)
    ensures Inv(Lock(s, job, index, parent))
  {
    AllBackward(s.jobs, s.tickets);
    LockKeepsJobs(s, job, index, parent);
    LockKeepsQueues(s, job, index, parent);
    LockKeepsReady(s, job, index, parent);
  }

  /** Ticket `t` alone moves on, to phase `p`. */
  ghost predicate Moved(ts: seq<Ticket>, ts': seq<Ticket>, t: nat, p: Phase) {
    && |ts'| == |ts| && t < |ts|
    && ts'[t] == ts[t].(phase := p, turns := ts'[t].turns)
    && forall u :: 0 <= u < |ts| && u != t ==> ts'[u] == ts[u]
  }

  /** At most the operation of job `j` changes. */
  ghost predicate SameJobs(jobs: seq<Job>, jobs': seq<Job>, j: nat) {
    && |jobs'| == |jobs|
    && forall i :: 0 <= i < |jobs| ==> jobs'[i] == jobs[i].(operation := jobs'[i].operation)
                                       && (i != j ==> jobs'[i] == jobs[i])
  }

  lemma MovedShape(jobs: seq<Job>, jobs': seq<Job>, ts: seq<Ticket>, ts': seq<Ticket>, t: nat, p: Phase, j: nat)
    requires Shape(jobs, ts) && Moved(ts, ts', t, p) && SameJobs(jobs, jobs', j)
    ensures Shape(jobs', ts')
  {
    forall u | 0 <= u < |ts|
      ensures Placed(jobs', ts', u)
    {
      assert Placed(jobs, ts, u);
    }
  }

  lemma MovedRooted(jobs: seq<Job>, jobs': seq<Job>, ts: seq<Ticket>, ts': seq<Ticket>, t: nat, p: Phase, j: nat)
    requires Rooted(jobs, ts, None) && Moved(ts, ts', t, p) && SameJobs(jobs, jobs', j)
    ensures Rooted(jobs', ts', None)
  {
    forall i | 0 <= i < |jobs'| && jobs'[i].keys != []
      ensures exists u :: 0 <= u < |ts'| && ts'[u].job == i
    {
      assert jobs[i].keys != [];
      var u :| 0 <= u < |ts| && ts[u].job == i;
      assert ts'[u].job == i;
    }
  }

  lemma MovedNesting(jobs: seq<Job>, jobs': seq<Job>, ts: seq<Ticket>, ts': seq<Ticket>, t: nat, p: Phase, j: nat,
                     owing: Option<nat>)
    requires Nesting(jobs, ts, None) && Moved(ts, ts', t, p) && SameJobs(jobs, jobs', j)
    requires j < |jobs| && jobs[j].operation.Done? ==> jobs'[j].operation.Done?
    requires ts[t].phase.Cleaned? ==> p.Cleaned?
    requires owing.None? || owing == Some(t)
    requires ts[t].nested.Some? <==> !p.Queued? && !Last(jobs, ts[t]) && owing.None?
    requires Over(p) ==> InnerOver(jobs, ts, ts[t])
    ensures Nesting(jobs', ts', owing)
  {
    forall u | 0 <= u < |ts|
      ensures Nested(jobs', ts', owing, u)
    {
      assert Nested(jobs, ts, None, u);
      assert Last(jobs', ts'[u]) == Last(jobs, ts[u]);
    }
  }

  lemma MovedChain(ts: seq<Ticket>, ts': seq<Ticket>, t: nat, p: Phase)
    requires Chain(ts) && Moved(ts, ts', t, p)
    requires ts[t].phase.Cleaned? ==> p.Cleaned?
    requires !p.Queued? && ts[t].phase.Queued? ==> AllCleaned(ts, ts[t].key, t)
    ensures Chain(ts')
  {
    forall u | 0 <= u < |ts|
      ensures Linked(ts', u)
    {
      assert Linked(ts, u);
    }
  }

  lemma MovedTails(ts: seq<Ticket>, ts': seq<Ticket>, t: nat, p: Phase, queues: map<string, nat>)
    requires Tails(ts, queues) && Moved(ts, ts', t, p)
    requires !p.Cleaned? && !ts[t].phase.Cleaned?
    ensures Tails(ts', queues)
  {
    forall k <- queues
      ensures NoneBetween(ts', k, queues[k], |ts'|)
    {
      assert NoneBetween(ts, k, queues[k], |ts|);
    }
  }

  /** Popping the head and appending what became due. */
  lemma ReadyMoves(jobs: seq<Job>, jobs': seq<Job>, ts: seq<Ticket>, ts': seq<Ticket>, ready: seq<Reaction>,
                   added: seq<Reaction>)
    requires ready != [] && Ready(jobs, ts, ready)
    requires Once(added)
    requires forall r: Reaction :: Due(jobs', ts', r) <==> (Due(jobs, ts, r) && r != ready[0]) || r in added
    requires forall r <- added :: !Due(jobs, ts, r) || r == ready[0]
    ensures Ready(jobs', ts', ready[1..] + added)
  {
    var rest := ready[1..];
    assert ready == [ready[0]] + rest;
    forall r: Reaction
      ensures r in rest + added <==> Due(jobs', ts', r)
    {
      assert r in ready <==> r == ready[0] || r in rest;
      assert r in rest ==> r != ready[0];
    }
    forall i, j | 0 <= i < j < |rest + added|
      ensures (rest + added)[i] != (rest + added)[j]
    {
      if i < |rest| <= j {
        assert added[j - |rest|] in added && rest[i] in rest && rest[i] in ready;
      }
    }
  }

  /** Appended cleanups follow their settlements, and appended starts are not what a cleanup waits on. */
  lemma OrderMoves(ts: seq<Ticket>, ts': seq<Ticket>, ready: seq<Reaction>, added: seq<Reaction>)
    requires ready != [] && Order(ts, ready) && |ts'| == |ts|
    requires forall u :: 0 <= u < |ts| ==> ts'[u].previous == ts[u].previous
    requires Order(ts', added)
    requires forall r, q :: r in ready && q in added && q.Clean? ==>
      !(r.Begin? && r.t < |ts| && ts[r.t].previous == Some(q.t))
    requires forall r <- added :: r.Settle? ==> Clean(r.t) !in ready
    ensures Order(ts', ready[1..] + added)
  {
    var rest := ready[1..];
    var all := rest + added;
    forall i, j | 0 <= i < |all| && 0 <= j < |all| && all[j].Clean?
      ensures all[i] == Settle(all[j].t) ==> i < j
      ensures all[i].Begin? && all[i].t < |ts'| && ts'[all[i].t].previous == Some(all[j].t) ==> j < i
    {
      if i < |rest| && j < |rest| {
        assert ready[i + 1] == all[i] && ready[j + 1] == all[j];
      } else if i < |rest| {
        assert ready[i + 1] in ready && added[j - |rest|] in added;
      } else if j < |rest| {
        assert ready[j + 1] in ready && added[i - |rest|] in added;
      } else {
        assert added[i - |rest|] == all[i] && added[j - |rest|] == all[j];
      }
    }
  }

  /** The ticket about to begin is the only one left on its key among those taken so far. */
  lemma BeginsAlone(s: State, t: nat)
    requires Chain(s.tickets) && Ready(s.jobs, s.tickets, s.ready) && Order(s.tickets, s.ready)
    requires s.ready != [] && s.ready[0] == Begin(t)
    ensures t < |s.tickets| && s.tickets[t].phase.Queued? && AllCleaned(s.tickets, s.tickets[t].key, t)
  {
    assert Due(s.jobs, s.tickets, s.ready[0]) && Linked(s.tickets, t);
    var previous := s.tickets[t].previous;
    if previous.Some? {
      var p := previous.value;
      assert Clean(p) !in s.ready by {
        if j :| 0 <= j < |s.ready| && s.ready[j] == Clean(p) {
          assert s.ready[0].Begin?;
        }
      }
      assert !Due(s.jobs, s.tickets, Clean(p)) && Linked(s.tickets, p);
      assert AllCleaned(s.tickets, s.tickets[t].key, p);
    }
  }

  lemma {:induction false} InnerTicketsNest(jobs: seq<Job>, ts: seq<Ticket>, t: nat, u: nat)
    requires Shape(jobs, ts) && t < |ts| && u < |ts| && ts[t].job == ts[u].job && ts[u].index < ts[t].index
    ensures ts[u].nested.Some?
    decreases ts[t].index
  {
    assert Placed(jobs, ts, t);
    var p := ts[t].parent.value;
    if ts[u].index < ts[p].index {
      InnerTicketsNest(jobs, ts, p, u);
    } else {
      assert u == p;
    }
  }

  /** A queued ticket's job still waits for its operation. */
  lemma QueuedWaits(jobs: seq<Job>, ts: seq<Ticket>, t: nat)
    requires Shape(jobs, ts) && Operations(jobs, ts) && Nesting(jobs, ts, None)
    requires t < |ts| && ts[t].phase.Queued?
    ensures ts[t].job < |jobs| && jobs[ts[t].job].operation.Waiting? && ts[t].nested.None?
  {
    assert Placed(jobs, ts, t) && Nested(jobs, ts, None, t);
    var operation := jobs[ts[t].job].operation;
    if !operation.Waiting? && !Last(jobs, ts[t]) {
      var u := operation.under.value;
      assert Placed(jobs, ts, u);
      InnerTicketsNest(jobs, ts, u, t);
    }
  }

  /** The called ticket, before it locks anything. */
  ghost predicate BeginFrame(s: State, s': State, t: nat) {
    && s.ready != [] && s.ready[0] == Begin(t) && s'.ready == s.ready[1..] && s'.queues == s.queues
    && Moved(s.tickets, s'.tickets, t, Running) && SameJobs(s.jobs, s'.jobs, s.tickets[t].job)
    && s.tickets[t].phase.Queued? && s.tickets[t].nested.None?
    && s.tickets[t].job < |s.jobs| && s.jobs[s.tickets[t].job].operation.Waiting?
    && s'.jobs[s.tickets[t].job].operation == if Last(s.jobs, s.tickets[t]) then Active(Some(t)) else Waiting
  }

  lemma BeginKeepsJobs(s: State, s': State, t: nat)
    requires BeginFrame(s, s', t)
    requires Shape(s.jobs, s.tickets) && Nesting(s.jobs, s.tickets, None) && Rooted(s.jobs, s.tickets, None)
    ensures Shape(s'.jobs, s'.tickets) && Rooted(s'.jobs, s'.tickets, None)
    ensures Nesting(s'.jobs, s'.tickets, if Last(s.jobs, s.tickets[t]) then None else Some(t))
  {
    var j := s.tickets[t].job;
    MovedShape(s.jobs, s'.jobs, s.tickets, s'.tickets, t, Running, j);
    MovedRooted(s.jobs, s'.jobs, s.tickets, s'.tickets, t, Running, j);
    MovedNesting(s.jobs, s'.jobs, s.tickets, s'.tickets, t, Running, j,
                 if Last(s.jobs, s.tickets[t]) then None else Some(t));
  }

  lemma BeginKeepsOperations(s: State, s': State, t: nat)
    requires BeginFrame(s, s', t)
    requires Shape(s.jobs, s.tickets) && Operations(s.jobs, s.tickets)
    ensures Operations(s'.jobs, s'.tickets)
  {
    forall u | 0 <= u < |s.tickets|
      ensures Last(s'.jobs, s'.tickets[u]) == Last(s.jobs, s.tickets[u])
      ensures Last(s.jobs, s.tickets[u]) && s.tickets[u].job == s.tickets[t].job && Last(s.jobs, s.tickets[t]) ==>
              u == t
    {
    }
  }

  lemma BeginKeepsQueues(s: State, s': State, t: nat)
    requires BeginFrame(s, s', t)
    requires Chain(s.tickets) && Tails(s.tickets, s.queues)
    requires Ready(s.jobs, s.tickets, s.ready) && Order(s.tickets, s.ready)
    ensures Chain(s'.tickets) && Tails(s'.tickets, s'.queues)
  {
    BeginsAlone(s, t);
    MovedChain(s.tickets, s'.tickets, t, Running);
    MovedTails(s.tickets, s'.tickets, t, Running, s.queues);
  }

  lemma BeginKeepsReady(s: State, s': State, t: nat)
    requires BeginFrame(s, s', t)
    requires Ready(s.jobs, s.tickets, s.ready) && Order(s.tickets, s.ready)
    ensures Ready(s'.jobs, s'.tickets, s'.ready) && Order(s'.tickets, s'.ready)
  {
    forall r: Reaction
      ensures Due(s'.jobs, s'.tickets, r) <==> Due(s.jobs, s.tickets, r) && r != Begin(t)
    {
      if r.t < |s.tickets| {
        assert Last(s'.jobs, s'.tickets[r.t]) == Last(s.jobs, s.tickets[r.t]);
      }
    }
    ReadyMoves(s.jobs, s'.jobs, s.tickets, s'.tickets, s.ready, []);
    OrderMoves(s.tickets, s'.tickets, s.ready, []);
    assert s.ready[1..] + [] == s'.ready;
  }

  lemma BeginOwes(s: State, s': State, t: nat)
    requires Inv(s) && BeginFrame(s, s', t)
    ensures InvOwing(s', if Last(s.jobs, s.tickets[t]) then None else Some(t), None)
  {
    BeginKeepsJobs(s, s', t);
    BeginKeepsOperations(s, s', t);
    BeginKeepsQueues(s, s', t);
    BeginKeepsReady(s, s', t);
  }

  lemma CalledFrame(s: State, t: nat)
    requires Inv(s) && s.ready != [] && s.ready[0] == Begin(t)
    ensures t < |s.tickets| && s.tickets[t].job < |s.jobs| && BeginFrame(s, Call(Popped(s), t), t)
  {
    BeginsAlone(s, t);
    QueuedWaits(s.jobs, s.tickets, t);
  }

  /** A called ticket that owes a lock may take it. */
  lemma OwingMayLock(s: State, t: nat)
    requires InvOwing(s, Some(t), None)
    requires t < |s.tickets| && s.tickets[t].phase.Running? && !Last(s.jobs, s.tickets[t])
    requires s.tickets[t].job < |s.jobs| && s.jobs[s.tickets[t].job].operation.Waiting?
    ensures MayLock(s, s.tickets[t].job, s.tickets[t].index + 1, Some(t))
  {
    assert Placed(s.jobs, s.tickets, t) && Nested(s.jobs, s.tickets, Some(t), t);
  }

  lemma OwedLock(s: State, t: nat, job: nat, index: nat)
    requires InvOwing(s, Some(t), None)
    requires t < |s.tickets| && s.tickets[t].phase.Running? && !Last(s.jobs, s.tickets[t])
    requires job == s.tickets[t].job && index == s.tickets[t].index + 1
    requires job < |s.jobs| && s.jobs[job].operation.Waiting?
    ensures index < |s.jobs[job].keys| && Inv(Lock(s, job, index, Some(t)))
  {
    OwingMayLock(s, t);
    LockKeeps(s, job, index, Some(t));
  }

  lemma NextKeeps(s: State, t: nat, s': State, s'': State)
    requires t < |s.tickets| && s.tickets[t].job < |s.jobs| && s.jobs[s.tickets[t].job].operation.Waiting?
    requires !Last(s.jobs, s.tickets[t]) && s' == SetPhase(s, t, Running) && InvOwing(s', Some(t), None)
    requires s'' == OnBegin(s, t)
    ensures Inv(s'')
  {
    var (job, index) := (s.tickets[t].job, s.tickets[t].index + 1);
    OwedLock(s', t, job, index);
    assert s'' == Lock(s', job, index, Some(t));
  }

  lemma BeginKeeps(s: State, t: nat)
    requires Inv(s) && s.ready != [] && s.ready[0] == Begin(t)
    ensures t < |s.tickets| && Inv(OnBegin(Popped(s), t))
  {
    CalledFrame(s, t);
    var s' := Call(Popped(s), t);
    BeginOwes(s, s', t);
    if !Last(s.jobs, s.tickets[t]) {
      NextKeeps(Popped(s), t, s', OnBegin(Popped(s), t));
    }
  }

  lemma HeadDue(s: State)
    requires Inv(s) && s.ready != []
    ensures Due(s.jobs, s.tickets, s.ready[0])
  {
  }

  lemma AdoptKeeps(s: State, t: nat)
    requires Inv(s) && s.ready != [] && s.ready[0] == Adopt(t)
    ensures t < |s.tickets| && Inv(OnAdopt(Popped(s), t))
  {
    assert Due(s.jobs, s.tickets, s.ready[0]);
    var s' := OnAdopt(Popped(s), t);
    var p := if s.tickets[t].turns > 0 then Running else Settled;
    assert Nested(s.jobs, s.tickets, None, t);
    MovedKeepsJobs(s, s', t, p);
    MovedChain(s.tickets, s'.tickets, t, p);
    MovedTails(s.tickets, s'.tickets, t, p, s.queues);
    var added := if s.tickets[t].turns > 0 then [Adopt(t)] else [Settle(t), Clean(t)];
    AdoptReady(s, s', t, added);
    AdoptOrder(s, s', t, added);
    assert s'.ready == s.ready[1..] + added;
  }

  /** A running ticket's inner promise is over: nothing else changes. */
  lemma MovedKeepsJobs(s: State, s': State, t: nat, p: Phase)
    requires Moved(s.tickets, s'.tickets, t, p) && s'.jobs == s.jobs && !p.Queued? && !s.tickets[t].phase.Queued?
    requires s.tickets[t].phase.Cleaned? ==> p.Cleaned?
    requires InnerOver(s.jobs, s.tickets, s.tickets[t])
    requires Shape(s.jobs, s.tickets) && Nesting(s.jobs, s.tickets, None)
    requires Operations(s.jobs, s.tickets) && Rooted(s.jobs, s.tickets, None)
    ensures Shape(s'.jobs, s'.tickets) && Nesting(s'.jobs, s'.tickets, None)
    ensures Operations(s'.jobs, s'.tickets) && Rooted(s'.jobs, s'.tickets, None)
  {
    var j := |s.jobs|;
    assert Nested(s.jobs, s.tickets, None, t);
    MovedShape(s.jobs, s'.jobs, s.tickets, s'.tickets, t, p, j);
    MovedRooted(s.jobs, s'.jobs, s.tickets, s'.tickets, t, p, j);
    MovedNesting(s.jobs, s'.jobs, s.tickets, s'.tickets, t, p, j, None);
    MovedOperations(s.jobs, s.tickets, s'.tickets, t, p);
  }

  lemma MovedOperations(jobs: seq<Job>, ts: seq<Ticket>, ts': seq<Ticket>, t: nat, p: Phase)
    requires Operations(jobs, ts) && Moved(ts, ts', t, p) && !p.Queued? && !ts[t].phase.Queued?
    ensures Operations(jobs, ts')
  {
    assert forall u :: 0 <= u < |ts| ==> Last(jobs, ts'[u]) == Last(jobs, ts[u]);
  }

  lemma AdoptReady(s: State, s': State, t: nat, added: seq<Reaction>)
    requires s.ready != [] && s.ready[0] == Adopt(t) && s'.jobs == s.jobs
    requires Ready(s.jobs, s.tickets, s.ready) && Order(s.tickets, s.ready)
    requires t < |s.tickets|
    requires Moved(s.tickets, s'.tickets, t, if s.tickets[t].turns > 0 then Running else Settled)
    requires added == if s.tickets[t].turns > 0 then [Adopt(t)] else [Settle(t), Clean(t)]
    ensures Ready(s'.jobs, s'.tickets, s.ready[1..] + added)
  {
    assert Due(s.jobs, s.tickets, Adopt(t));
    forall r: Reaction
      ensures Due(s'.jobs, s'.tickets, r) <==> (Due(s.jobs, s.tickets, r) && r != Adopt(t)) || r in added
    {
      if r.t < |s.tickets| {
        assert Last(s'.jobs, s'.tickets[r.t]) == Last(s.jobs, s.tickets[r.t]);
      }
    }
    ReadyMoves(s.jobs, s'.jobs, s.tickets, s'.tickets, s.ready, added);
  }

  lemma AdoptOrder(s: State, s': State, t: nat, added: seq<Reaction>)
    requires s.ready != [] && t < |s.tickets| && s.tickets[t].phase.Running? && s'.jobs == s.jobs
    requires Ready(s.jobs, s.tickets, s.ready) && Order(s.tickets, s.ready) && Chain(s.tickets)
    requires Moved(s.tickets, s'.tickets, t, if s.tickets[t].turns > 0 then Running else Settled)
    requires added == if s.tickets[t].turns > 0 then [Adopt(t)] else [Settle(t), Clean(t)]
    ensures Order(s'.tickets, s.ready[1..] + added)
  {
    assert !Due(s.jobs, s.tickets, Clean(t));
    forall r | r in s.ready && r.Begin? && r.t < |s.tickets|
      ensures s.tickets[r.t].previous != Some(t)
    {
      assert Due(s.jobs, s.tickets, r);
    }
    OrderMoves(s.tickets, s'.tickets, s.ready, added);
  }

  lemma SettleKeeps(s: State, t: nat)
    requires Inv(s) && s.ready != [] && s.ready[0] == Settle(t)
    ensures t < |s.tickets| && Inv(OnSettle(Popped(s), t))
  {
    assert Due(s.jobs, s.tickets, s.ready[0]);
    var s' := OnSettle(Popped(s), t);
    assert Nested(s.jobs, s.tickets, None, t) && Linked(s.tickets, t);
    MovedKeepsJobs(s, s', t, Released);
    MovedChain(s.tickets, s'.tickets, t, Released);
    MovedTails(s.tickets, s'.tickets, t, Released, s.queues);
    var waiter := s.tickets[t].waiter;
    var added := if waiter.Some? then [Begin(waiter.value)] else [];
    SettleReady(s, s', t, added);
    SettleOrder(s, s', t, added);
    assert s'.ready == s.ready[1..] + added;
  }

  lemma SettleReady(s: State, s': State, t: nat, added: seq<Reaction>)
    requires s.ready != [] && s.ready[0] == Settle(t) && s'.jobs == s.jobs && t < |s.tickets|
    requires Ready(s.jobs, s.tickets, s.ready) && Chain(s.tickets)
    requires Moved(s.tickets, s'.tickets, t, Released) && s.tickets[t].phase.Settled?
    requires added == if s.tickets[t].waiter.Some? then [Begin(s.tickets[t].waiter.value)] else []
    ensures Ready(s'.jobs, s'.tickets, s.ready[1..] + added)
  {
    assert Linked(s.tickets, t);
    forall r: Reaction
      ensures Due(s'.jobs, s'.tickets, r) <==> (Due(s.jobs, s.tickets, r) && r != Settle(t)) || r in added
      ensures r in added ==> !Due(s.jobs, s.tickets, r)
    {
      if r.t < |s.tickets| {
        assert Last(s'.jobs, s'.tickets[r.t]) == Last(s.jobs, s.tickets[r.t]);
        assert Linked(s.tickets, r.t);
      }
    }
    ReadyMoves(s.jobs, s'.jobs, s.tickets, s'.tickets, s.ready, added);
  }

  lemma SettleOrder(s: State, s': State, t: nat, added: seq<Reaction>)
    requires s.ready != [] && t < |s.tickets| && Order(s.tickets, s.ready) && Moved(s.tickets, s'.tickets, t, Released)
    requires added == if s.tickets[t].waiter.Some? then [Begin(s.tickets[t].waiter.value)] else []
    ensures Order(s'.tickets, s.ready[1..] + added)
  {
    OrderMoves(s.tickets, s'.tickets, s.ready, added);
  }

  lemma CleanKeeps(s: State, t: nat)
    requires Inv(s) && s.ready != [] && s.ready[0] == Clean(t)
    ensures t < |s.tickets| && Inv(OnClean(Popped(s), t))
  {
    HeadDue(s);
    CleanMoves(s, t, OnClean(Popped(s), t));
  }

  lemma CleanMoves(s: State, t: nat, s': State)
    requires Inv(s) && s.ready != [] && s.ready[0] == Clean(t) && t < |s.tickets| && s' == OnClean(Popped(s), t)
    ensures Inv(s')
  {
    HeadDue(s);
    var parent := s.tickets[t].parent;
    var added := if parent.Some? then [Adopt(parent.value)] else [];
    assert s'.ready == s.ready[1..] + added;
    assert Nested(s.jobs, s.tickets, None, t);
    MovedKeepsJobs(s, s', t, Cleaned);
    MovedChain(s.tickets, s'.tickets, t, Cleaned);
    CleanTails(s.tickets, s'.tickets, t, s.queues);
    CleanReady(s, s', t, added);
    CleanOrder(s, s', t, added);
  }

  /** Only this ticket's own entry may go, and then nobody waits behind it. */
  lemma CleanTails(ts: seq<Ticket>, ts': seq<Ticket>, t: nat, queues: map<string, nat>)
    requires Tails(ts, queues) && Chain(ts) && Moved(ts, ts', t, Cleaned) && Over(ts[t].phase) && !ts[t].phase.Cleaned?
    ensures var key := ts[t].key;
            Tails(ts', if key in queues && queues[key] == t then queues - {key} else queues)
  {
    var key := ts[t].key;
    var queues' := if key in queues && queues[key] == t then queues - {key} else queues;
    forall k <- queues'
      ensures NoneBetween(ts', k, queues'[k], |ts'|)
    {
      assert NoneBetween(ts, k, queues[k], |ts|);
    }
    if key in queues && queues[key] == t {
      assert NoneBetween(ts, key, t, |ts|);
      forall u | 0 <= u < |ts'| && !ts'[u].phase.Cleaned?
        ensures ts'[u].key in queues'
      {
        assert Linked(ts, t);
        assert u < t ==> ts[u].key != key by {
          assert AllCleaned(ts, key, t);
        }
      }
    }
  }

  lemma CleanReady(s: State, s': State, t: nat, added: seq<Reaction>)
    requires s.ready != [] && s.ready[0] == Clean(t) && s'.jobs == s.jobs && t < |s.tickets|
    requires Ready(s.jobs, s.tickets, s.ready) && Order(s.tickets, s.ready)
    requires Shape(s.jobs, s.tickets) && Nesting(s.jobs, s.tickets, None)
    requires Moved(s.tickets, s'.tickets, t, Cleaned) && (s.tickets[t].phase.Settled? || s.tickets[t].phase.Released?)
    requires added == if s.tickets[t].parent.Some? then [Adopt(s.tickets[t].parent.value)] else []
    ensures Ready(s'.jobs, s'.tickets, s.ready[1..] + added)
  {
    CleanReleased(s, t);
    assert Placed(s.jobs, s.tickets, t);
    forall r: Reaction
      ensures Due(s'.jobs, s'.tickets, r) <==> (Due(s.jobs, s.tickets, r) && r != Clean(t)) || r in added
      ensures r in added ==> !Due(s.jobs, s.tickets, r)
    {
      if r.t < |s.tickets| {
        assert Last(s'.jobs, s'.tickets[r.t]) == Last(s.jobs, s.tickets[r.t]);
        assert Placed(s.jobs, s.tickets, r.t) && Nested(s.jobs, s.tickets, None, r.t);
      }
    }
    ReadyMoves(s.jobs, s'.jobs, s.tickets, s'.tickets, s.ready, added);
  }

  /** `settled` has resolved before the cleanup runs. */
  lemma CleanReleased(s: State, t: nat)
    requires s.ready != [] && s.ready[0] == Clean(t) && t < |s.tickets|
    requires Ready(s.jobs, s.tickets, s.ready) && Order(s.tickets, s.ready)
    ensures !s.tickets[t].phase.Settled?
  {
    assert Settle(t) !in s.ready by {
      if i :| 0 <= i < |s.ready| && s.ready[i] == Settle(t) {
        assert s.ready[0].Clean?;
      }
    }
    assert !Due(s.jobs, s.tickets, Settle(t));
  }

  lemma CleanOrder(s: State, s': State, t: nat, added: seq<Reaction>)
    requires s.ready != [] && t < |s.tickets| && Order(s.tickets, s.ready) && Moved(s.tickets, s'.tickets, t, Cleaned)
    requires added == if s.tickets[t].parent.Some? then [Adopt(s.tickets[t].parent.value)] else []
    ensures Order(s'.tickets, s.ready[1..] + added)
  {
    OrderMoves(s.tickets, s'.tickets, s.ready, added);
  }

  lemma TurnKeeps(s: State)
    requires Inv(s) && s.ready != []
    ensures Inv(Turn(s))
  {
    match s.ready[0]
    case Begin(t) => BeginKeeps(s, t);
    case Adopt(t) => AdoptKeeps(s, t);
    case Settle(t) => SettleKeeps(s, t);
    case Clean(t) => CleanKeeps(s, t);
  }

  /** New jobs do not disturb the tickets. */
  lemma AddJobKeeps(s: State, keys: seq<string>)
    requires Inv(s)
    ensures InvOwing(AddJob(s, keys), None, if keys == [] then None else Some(|s.jobs|))
    ensures forall t :: 0 <= t < |s.tickets| ==> s.tickets[t].job != |s.jobs|
  {
    var jobs' := AddJob(s, keys).jobs;
    AddedShape(s.jobs, jobs', s.tickets);
    AddedReady(s.jobs, jobs', s.tickets, s.ready);
    forall j | 0 <= j < |s.jobs| && s.jobs[j].keys != []
      ensures exists t :: 0 <= t < |s.tickets| && s.tickets[t].job == j
    {
    }
  }

  lemma AddedShape(jobs: seq<Job>, jobs': seq<Job>, ts: seq<Ticket>)
    requires Shape(jobs, ts) && Nesting(jobs, ts, None) && Operations(jobs, ts)
    requires |jobs'| == |jobs| + 1 && jobs'[..|jobs|] == jobs
    requires jobs'[|jobs|].operation == if jobs'[|jobs|].keys == [] then Active(None) else Waiting
    ensures Shape(jobs', ts) && Nesting(jobs', ts, None) && Operations(jobs', ts)
    ensures forall t :: 0 <= t < |ts| ==> ts[t].job != |jobs|
  {
    assert forall j :: 0 <= j < |jobs| ==> jobs'[j] == jobs[j];
    forall t | 0 <= t < |ts|
      ensures ts[t].job < |jobs| && Placed(jobs', ts, t) && Nested(jobs', ts, None, t)
      ensures Last(jobs', ts[t]) == Last(jobs, ts[t])
    {
      assert Placed(jobs, ts, t) && Nested(jobs, ts, None, t);
    }
  }

  lemma AddedReady(jobs: seq<Job>, jobs': seq<Job>, ts: seq<Ticket>, ready: seq<Reaction>)
    requires Shape(jobs, ts) && Ready(jobs, ts, ready)
    requires |jobs'| == |jobs| + 1 && jobs'[..|jobs|] == jobs
    ensures Ready(jobs', ts, ready)
  {
    forall r: Reaction
      ensures Due(jobs', ts, r) == Due(jobs, ts, r)
    {
      if r.t < |ts| {
        assert Placed(jobs, ts, r.t) && jobs'[ts[r.t].job] == jobs[ts[r.t].job];
      }
    }
  }

  lemma SubmitKeeps(s: State, targets: seq<string>)
    requires Inv(s)
    ensures Inv(Submit(s, targets))
  {
    var keys := SortedKeys(targets);
    AddJobKeeps(s, keys);
    if keys != [] {
      LockKeeps(AddJob(s, keys), |s.jobs|, 0, None);
    }
  }

  lemma FinishKeeps(s: State, j: nat)
    requires Inv(s) && j < |s.jobs| && s.jobs[j].operation.Active?
    ensures Inv(Finish(s, j))
  {
    var s' := Finish(s, j);
    var under := s.jobs[j].operation.under;
    var added := if under.Some? then [Adopt(under.value)] else [];
    FinishJobs(s.jobs, s'.jobs, s.tickets, j);
    FinishReady(s.jobs, s'.jobs, s.tickets, j, s.ready, added);
    FinishOrder(s.tickets, s.ready, added);
    assert s.ready + [] == s.ready;
  }

  lemma FinishJobs(jobs: seq<Job>, jobs': seq<Job>, ts: seq<Ticket>, j: nat)
    requires Shape(jobs, ts) && Nesting(jobs, ts, None) && Operations(jobs, ts) && Rooted(jobs, ts, None)
    requires j < |jobs| && jobs[j].operation.Active? && SameJobs(jobs, jobs', j)
    requires jobs'[j].operation == Done(jobs[j].operation.under)
    ensures Shape(jobs', ts) && Nesting(jobs', ts, None) && Operations(jobs', ts) && Rooted(jobs', ts, None)
  {
    forall t | 0 <= t < |ts|
      ensures Placed(jobs', ts, t) && Nested(jobs', ts, None, t)
    {
      assert Placed(jobs, ts, t) && Nested(jobs, ts, None, t);
    }
    FinishOperations(jobs, jobs', ts, j);
    assert forall i :: 0 <= i < |jobs| ==> jobs'[i].keys == jobs[i].keys;
  }

  lemma FinishOperations(jobs: seq<Job>, jobs': seq<Job>, ts: seq<Ticket>, j: nat)
    requires Operations(jobs, ts) && j < |jobs| && jobs[j].operation.Active? && SameJobs(jobs, jobs', j)
    requires jobs'[j].operation == Done(jobs[j].operation.under)
    ensures Operations(jobs', ts)
  {
    assert forall t :: 0 <= t < |ts| ==> Last(jobs', ts[t]) == Last(jobs, ts[t]);
  }

  lemma FinishReady(jobs: seq<Job>, jobs': seq<Job>, ts: seq<Ticket>, j: nat, ready: seq<Reaction>,
                    added: seq<Reaction>)
    requires Shape(jobs, ts) && Nesting(jobs, ts, None) && Operations(jobs, ts) && Ready(jobs, ts, ready)
    requires j < |jobs| && jobs[j].operation.Active? && SameJobs(jobs, jobs', j)
    requires jobs'[j].operation == Done(jobs[j].operation.under)
    requires added == if jobs[j].operation.under.Some? then [Adopt(jobs[j].operation.under.value)] else []
    ensures Ready(jobs', ts, ready + added)
  {
    forall r: Reaction
      ensures Due(jobs', ts, r) <==> Due(jobs, ts, r) || r in added
      ensures r in added ==> !Due(jobs, ts, r)
    {
      if r.t < |ts| {
        assert Placed(jobs, ts, r.t) && Nested(jobs, ts, None, r.t);
        assert Last(jobs', ts[r.t]) == Last(jobs, ts[r.t]);
      }
    }
    assert forall r: Reaction :: r in ready + added <==> Due(jobs', ts, r);
    forall i, k | 0 <= i < k < |ready + added|
      ensures (ready + added)[i] != (ready + added)[k]
    {
      if i < |ready| <= k {
        assert added[k - |ready|] in added && ready[i] in ready;
      }
    }
  }

  lemma FinishOrder(ts: seq<Ticket>, ready: seq<Reaction>, added: seq<Reaction>)
    requires Order(ts, ready) && (forall r <- added :: r.Adopt?) && |added| <= 1
    ensures Order(ts, ready + added)
  {
    var all := ready + added;
    forall i, j | 0 <= i < |all| && 0 <= j < |all| && all[j].Clean?
      ensures all[i] == Settle(all[j].t) ==> i < j
      ensures all[i].Begin? && all[i].t < |ts| && ts[all[i].t].previous == Some(all[j].t) ==> j < i
    {
      if |ready| <= i {
        assert all[i] in added;
      }
      if |ready| <= j {
        assert all[j] in added;
      }
    }
  }

  lemma ApplyKeeps(s: State, e: Event)
    requires Inv(s) && SortedJobs(s) && Enabled(s, e)
    ensures Inv(Apply(s, e)) && SortedJobs(Apply(s, e))
  {
    match e
    case Submitted(targets) =>
      SubmitKeeps(s, targets);
      SortedKeysCorrect(targets);
    case Turned =>
      TurnKeeps(s);
      TurnKeys(s);
    case Finished(j) =>
      FinishKeeps(s, j);
  }

  lemma TurnKeys(s: State)
    requires s.ready != []
    ensures |Turn(s).jobs| == |s.jobs| && forall j :: 0 <= j < |s.jobs| ==> Turn(s).jobs[j].keys == s.jobs[j].keys
  {
  }

  lemma {:induction false} RunKeeps(s: State, events: seq<Event>)
    requires Inv(s) && SortedJobs(s)
    ensures Run(s, events).Some? ==> Inv(Run(s, events).value) && SortedJobs(Run(s, events).value)
    decreases events
  {
    if events != [] && Enabled(s, events[0]) {
      ApplyKeeps(s, events[0]);
      RunKeeps(Apply(s, events[0]), events[1..]);
    }
  }

  lemma ReachableSound(s: State)
    requires Reachable(s)
    ensures Inv(s) && SortedJobs(s)
  {
    var delay, events :| Run(Start(delay), events) == Some(s);
    StartSound(delay);
    RunKeeps(Start(delay), events);
  }

  lemma StartSound(delay: (nat, nat) -> nat)
    ensures Inv(Start(delay)) && SortedJobs(Start(delay))
  {
  }
}
