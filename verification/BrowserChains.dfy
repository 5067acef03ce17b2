/**
 * The promise chains of src/browser/browser-service.ts: operations on one page
 * queue behind each other, operations on the shared state do too, and closing
 * the backend waits for the page operations it finds.
 */
module BrowserChains {
  import opened Wrappers

  type Ticket = nat

  /** `Draining` is only for the close operation, while it waits for the chains it found. */
  datatype Phase = Queued | Draining | Working | Settled | TailSettled

  /** `page` is None on the shared chain; `previous` is the operation whose tail this one was chained to. */
  datatype Operation = Operation(
    page: Option<string>,
    closes: bool,
    previous: Option<Ticket>,
    phase: Phase,
    cleaned: bool,
    found: set<Ticket>,  // the tails a close waits for
    seen: nat)           // how many operations had been asked for when it looked

  datatype State = State(operations: seq<Operation>, pageChains: map<string, Ticket>, sharedChain: Option<Ticket>)

  const INITIAL := State([], map[], None)

  datatype Event =
    | RunOnPage(page: string)
    | RunShared(closes: bool)
    | Begin(t: Ticket)
    | Drained(t: Ticket)     // all found tails are settled: the backend is closed
    | Finish(t: Ticket)      // the operation settles, either way
    | SettleTail(t: Ticket)
    | Clean(t: Ticket)       // the reaction that deletes the chain

  function Fresh(page: Option<string>, closes: bool, previous: Option<Ticket>): Operation {
    Operation(page, closes, previous, Queued, false, {}, 0)
  }

  function AfterRunOnPage(s: State, page: string): State {
    var previous := if page in s.pageChains then Some(s.pageChains[page]) else None;
    s.(operations := s.operations + [Fresh(Some(page), false, previous)],
       pageChains := s.pageChains[page := |s.operations|])
  }

  function AfterRunShared(s: State, closes: bool): State {
    s.(operations := s.operations + [Fresh(None, closes, s.sharedChain)], sharedChain := Some(|s.operations|))
  }

  predicate PreviousDone(operations: seq<Operation>, operation: Operation) {
    operation.previous.Some? ==>
      operation.previous.value < |operations| && operations[operation.previous.value].phase == TailSettled
  }

  predicate FoundDone(operations: seq<Operation>, found: set<Ticket>) {
    forall f :: f in found ==> f < |operations| && operations[f].phase == TailSettled
  }

  /** A close looks at the page chains when it starts. */
  function Started(s: State, operation: Operation): Operation {
    if operation.closes then operation.(phase := Draining, found := s.pageChains.Values, seen := |s.operations|)
    else operation.(phase := Working)
  }

  function Put(s: State, t: Ticket, operation: Operation): State
    requires t < |s.operations|
  {
    s.(operations := s.operations[t := operation])
  }

  function AfterClean(s: State, t: Ticket): State
    requires t < |s.operations|
  {
    var operation := s.operations[t];
    var cleaned := Put(s, t, operation.(cleaned := true));
    if operation.page.Some? && operation.page.value in s.pageChains && s.pageChains[operation.page.value] == t then
      cleaned.(pageChains := s.pageChains - {operation.page.value})
    else cleaned
  }

  predicate Enabled(s: State, e: Event) {
    match e
    case RunOnPage(_) => true
    case RunShared(_) => true
    case Begin(t) => t < |s.operations| && s.operations[t].phase == Queued
        && PreviousDone(s.operations, s.operations[t])
    case Drained(t) => t < |s.operations| && s.operations[t].phase == Draining
        && FoundDone(s.operations, s.operations[t].found)
    case Finish(t) => t < |s.operations| && s.operations[t].phase == Working
    case SettleTail(t) => t < |s.operations| && s.operations[t].phase == Settled
    case Clean(t) => t < |s.operations| && s.operations[t].phase == TailSettled && !s.operations[t].cleaned
  }

  function Apply(s: State, e: Event): State
    requires Enabled(s, e)
  {
    match e
    case RunOnPage(page) => AfterRunOnPage(s, page)
    case RunShared(closes) => AfterRunShared(s, closes)
    case Begin(t) => Put(s, t, Started(s, s.operations[t]))
    case Drained(t) => Put(s, t, s.operations[t].(phase := Working))
    case Finish(t) => Put(s, t, s.operations[t].(phase := Settled))
    case SettleTail(t) => Put(s, t, s.operations[t].(phase := TailSettled))
    case Clean(t) => AfterClean(s, t)
  }

  // ---------------------------------------------------------------- the service object

  class Chains {
    var operations: seq<Operation>
    var pageChains: map<string, Ticket>
    var sharedChain: Option<Ticket>

    ghost function Snapshot(): State
      reads this
    {
      State(operations, pageChains, sharedChain)
    }

    constructor ()
      ensures Snapshot() == INITIAL
    {
      operations, pageChains, sharedChain := [], map[], None;
    }

    method OnPage(page: string) returns (t: Ticket)
      modifies this
      ensures t == |old(operations)| && Snapshot() == AfterRunOnPage(old(Snapshot()), page)
    {
      t := |operations|;
      var previous := if page in pageChains then Some(pageChains[page]) else None;
      operations := operations + [Fresh(Some(page), false, previous)];
      pageChains := pageChains[page := t];
    }

    method Shared(closes: bool) returns (t: Ticket)
      modifies this
      ensures t == |old(operations)| && Snapshot() == AfterRunShared(old(Snapshot()), closes)
    {
      t := |operations|;
      operations := operations + [Fresh(None, closes, sharedChain)];
      sharedChain := Some(t);
    }

    method StartOperation(t: Ticket)
      requires Enabled(Snapshot(), Begin(t))
      modifies this`operations
      ensures Snapshot() == Apply(old(Snapshot()), Begin(t))
    {
      var operation := operations[t];
      if operation.closes {
        operation := operation.(phase := Draining, found := pageChains.Values, seen := |operations|);
      } else {
        operation := operation.(phase := Working);
      }
      operations := operations[t := operation];
    }

    method DeleteChain(t: Ticket)
      requires Enabled(Snapshot(), Clean(t))
      modifies this
      ensures Snapshot() == AfterClean(old(Snapshot()), t)
    {
      var page := operations[t].page;
      operations := operations[t := operations[t].(cleaned := true)];
      if page.Some? && page.value in pageChains && pageChains[page.value] == t {
        pageChains := pageChains - {page.value};
      }
    }
  }

  // ---------------------------------------------------------------- what every step keeps

  /** The operation was chained to the latest one before it on its chain, or all before it were over. */
  predicate Chained(operations: seq<Operation>, t: Ticket)
    requires t < |operations|
  {
    match operations[t].previous
    case Some(q) => q < t && operations[q].page == operations[t].page
        && NoneBetween(operations, q, t, operations[t].page)
    case None => AllDone(operations, t, operations[t].page)
  }

  predicate NoneBetween(operations: seq<Operation>, q: Ticket, t: Ticket, page: Option<string>) {
    forall r :: q < r < t && r < |operations| ==> operations[r].page != page
  }

  /** All operations on this chain before `t` have settled tails. */
  predicate AllDone(operations: seq<Operation>, t: Ticket, page: Option<string>) {
    forall r :: 0 <= r < t && r < |operations| && operations[r].page == page ==> operations[r].phase == TailSettled
  }

  /** An operation starts only after the one it was chained to. */
  predicate InTurn(operations: seq<Operation>, t: Ticket)
    requires t < |operations|
  {
    operations[t].phase != Queued ==> PreviousDone(operations, operations[t])
  }

  /** Each page operation a close saw is over or is covered by a tail the close waits for. */
  predicate Covered(operations: seq<Operation>, found: set<Ticket>, r: Ticket)
    requires r < |operations|
  {
    || operations[r].page.None?
    || operations[r].phase == TailSettled
    || exists f :: f in found && r <= f < |operations| && operations[f].page == operations[r].page
  }

  predicate OnPages(operations: seq<Operation>, found: set<Ticket>) {
    forall f :: f in found ==> f < |operations| && operations[f].page.Some?
  }

  predicate CloseSound(operations: seq<Operation>, t: Ticket)
    requires t < |operations|
  {
    var operation := operations[t];
    && operation.seen <= |operations|
    && (operation.closes ==> operation.page.None?)
    && (operation.phase == Draining ==>
          && operation.closes && OnPages(operations, operation.found)
          && forall r :: 0 <= r < operation.seen ==> Covered(operations, operation.found, r))
    && (operation.closes && operation.phase in {Working, Settled, TailSettled} ==>
          forall r :: 0 <= r < operation.seen && operations[r].page.Some? ==> operations[r].phase == TailSettled)
  }

  predicate OperationsSound(operations: seq<Operation>) {
    forall t :: 0 <= t < |operations| ==>
      Chained(operations, t) && InTurn(operations, t) && CloseSound(operations, t)
  }

  /** `t` is the last operation on this chain. */
  predicate Latest(operations: seq<Operation>, t: Ticket, page: Option<string>) {
    t < |operations| && operations[t].page == page && NoneBetween(operations, t, |operations|, page)
  }

  predicate ChainSound(operations: seq<Operation>, tail: Option<Ticket>, page: Option<string>) {
    match tail
    case Some(t) => Latest(operations, t, page)
    case None => AllDone(operations, |operations|, page)
  }

  function TailOf(s: State, page: Option<string>): Option<Ticket> {
    if page.None? then s.sharedChain
    else if page.value in s.pageChains then Some(s.pageChains[page.value])
    else None
  }

  ghost predicate Sound(s: State) {
    OperationsSound(s.operations) && forall page :: ChainSound(s.operations, TailOf(s, page), page)
  }

  /** What is over stays over, and chains are not rewired. */
  predicate Advances(before: Operation, after: Operation) {
    && after.page == before.page && after.previous == before.previous && after.closes == before.closes
    && (before.phase == TailSettled ==> after.phase == TailSettled)
  }

  lemma PutKeepsChains(s: State, t: Ticket, operation: Operation, page: Option<string>)
    requires t < |s.operations| && Advances(s.operations[t], operation)
    requires ChainSound(s.operations, TailOf(s, page), page)
    ensures ChainSound(Put(s, t, operation).operations, TailOf(s, page), page)
  {
  }

  lemma PutKeepsOthers(operations: seq<Operation>, t: Ticket, operation: Operation, u: Ticket)
    requires t < |operations| && Advances(operations[t], operation) && u < |operations| && u != t
    requires Chained(operations, u) && InTurn(operations, u) && CloseSound(operations, u)
    ensures var after := operations[t := operation];
            Chained(after, u) && InTurn(after, u) && CloseSound(after, u)
  {
    var after := operations[t := operation];
    if operations[u].phase == Draining {
      forall r | 0 <= r < operations[u].seen
        ensures Covered(after, operations[u].found, r)
      {
        assert Covered(operations, operations[u].found, r);
      }
    }
  }

  lemma PutIsSound(s: State, t: Ticket, operation: Operation)
    requires Sound(s) && t < |s.operations| && Advances(s.operations[t], operation)
    requires var after := s.operations[t := operation]; InTurn(after, t) && CloseSound(after, t)
    ensures Sound(Put(s, t, operation))
  {
    var after := Put(s, t, operation);
    forall u | 0 <= u < |after.operations|
      ensures Chained(after.operations, u) && InTurn(after.operations, u) && CloseSound(after.operations, u)
    {
      assert Chained(s.operations, u) && InTurn(s.operations, u) && CloseSound(s.operations, u);
      if u != t {
        PutKeepsOthers(s.operations, t, operation, u);
      }
    }
    forall page
      ensures ChainSound(after.operations, TailOf(after, page), page)
    {
      PutKeepsChains(s, t, operation, page);
    }
  }

  /** A new operation takes its place at the end of its chain. */
  lemma AppendIsSound(s: State, after: State, page: Option<string>, closes: bool)
    requires Sound(s) && (closes ==> page.None?)
    requires after.operations == s.operations + [Fresh(page, closes, TailOf(s, page))]
    requires forall other :: TailOf(after, other) == if other == page then Some(|s.operations|) else TailOf(s, other)
    ensures Sound(after)
  {
    var n := |s.operations|;
    forall u | 0 <= u < n
      ensures Chained(after.operations, u) && InTurn(after.operations, u) && CloseSound(after.operations, u)
    {
      AppendKeepsOthers(s.operations, after.operations[n], u);
    }
    assert ChainSound(s.operations, TailOf(s, page), page);
    forall other
      ensures ChainSound(after.operations, TailOf(after, other), other)
    {
      assert ChainSound(s.operations, TailOf(s, other), other);
    }
  }

  lemma AppendKeepsOthers(operations: seq<Operation>, operation: Operation, u: Ticket)
    requires u < |operations| && Chained(operations, u) && InTurn(operations, u) && CloseSound(operations, u)
    ensures var after := operations + [operation];
            Chained(after, u) && InTurn(after, u) && CloseSound(after, u)
  {
    var after := operations + [operation];
    if operations[u].phase == Draining {
      forall r | 0 <= r < operations[u].seen
        ensures Covered(after, operations[u].found, r)
      {
        assert Covered(operations, operations[u].found, r);
      }
    }
  }

  /** When an operation has started, all operations before it on its chain are over. */
  lemma {:induction false} DoneBefore(operations: seq<Operation>, t: Ticket, r: Ticket)
    requires OperationsSound(operations) && r < t < |operations|
    requires operations[r].page == operations[t].page && operations[t].phase != Queued
    ensures operations[r].phase == TailSettled
  {
    assert Chained(operations, t) && InTurn(operations, t);
    if operations[t].previous.Some? {
      var q := operations[t].previous.value;
      if r < q {
        DoneBefore(operations, q, r);
      }
    }
  }

  lemma BeginIsSound(s: State, t: Ticket)
    requires Sound(s) && Enabled(s, Begin(t))
    ensures Sound(Apply(s, Begin(t)))
  {
    var operation := Started(s, s.operations[t]);
    var after := s.operations[t := operation];
    assert Chained(s.operations, t) && CloseSound(s.operations, t);
    if operation.closes {
      forall f | f in operation.found
        ensures f < |after| && after[f].page.Some?
      {
        var page :| page in s.pageChains && s.pageChains[page] == f;
        assert ChainSound(s.operations, TailOf(s, Some(page)), Some(page));
      }
      forall r | 0 <= r < operation.seen
        ensures Covered(after, operation.found, r)
      {
        FoundCovers(s, t, r);
      }
    }
    PutIsSound(s, t, operation);
  }

  /** The tails in the map cover every page operation. */
  lemma FoundCovers(s: State, t: Ticket, r: Ticket)
    requires Sound(s) && t < |s.operations| && r < |s.operations| && s.operations[t].phase == Queued
             && s.operations[t].closes
    ensures Covered(s.operations[t := Started(s, s.operations[t])], s.pageChains.Values, r)
  {
    var page := s.operations[r].page;
    assert CloseSound(s.operations, t);
    if page.Some? && s.operations[r].phase != TailSettled {
      assert ChainSound(s.operations, TailOf(s, page), page);
      var f := s.pageChains[page.value];
      assert f in s.pageChains.Values && r <= f;
    }
  }

  lemma DrainedIsSound(s: State, t: Ticket)
    requires Sound(s) && Enabled(s, Drained(t))
    ensures Sound(Apply(s, Drained(t)))
  {
    var operation := s.operations[t];
    var after := s.operations[t := operation.(phase := Working)];
    assert InTurn(s.operations, t) && CloseSound(s.operations, t);
    forall r | 0 <= r < operation.seen && s.operations[r].page.Some?
      ensures after[r].phase == TailSettled
    {
      assert Covered(s.operations, operation.found, r);
      if s.operations[r].phase != TailSettled {
        var f :| f in operation.found && r <= f < |s.operations| && s.operations[f].page == s.operations[r].page;
        if r < f {
          DoneBefore(s.operations, f, r);
        }
      }
    }
    PutIsSound(s, t, operation.(phase := Working));
  }

  lemma CleanIsSound(s: State, t: Ticket)
    requires Sound(s) && Enabled(s, Clean(t))
    ensures Sound(AfterClean(s, t))
  {
    var operation := s.operations[t].(cleaned := true);
    var put := Put(s, t, operation);
    assert InTurn(s.operations, t) && CloseSound(s.operations, t);
    PutIsSound(s, t, operation);
    var after := AfterClean(s, t);
    forall page
      ensures ChainSound(after.operations, TailOf(after, page), page)
    {
      assert ChainSound(put.operations, TailOf(put, page), page);
      if TailOf(after, page) != TailOf(put, page) {
        LatestDone(put.operations, t, page);
      }
    }
  }

  lemma LatestDone(operations: seq<Operation>, t: Ticket, page: Option<string>)
    requires OperationsSound(operations) && Latest(operations, t, page) && operations[t].phase == TailSettled
    ensures AllDone(operations, |operations|, page)
  {
    forall r | 0 <= r < |operations| && operations[r].page == page
      ensures operations[r].phase == TailSettled
    {
      if r < t {
        DoneBefore(operations, t, r);
      }
    }
  }

  lemma StepIsSound(s: State, e: Event)
    requires Sound(s) && Enabled(s, e)
    ensures Sound(Apply(s, e))
  {
    match e
    case RunOnPage(page) => AppendIsSound(s, Apply(s, e), Some(page), false);
    case RunShared(closes) => AppendIsSound(s, Apply(s, e), None, closes);
    case Begin(t) => BeginIsSound(s, t);
    case Drained(t) => DrainedIsSound(s, t);
    case Clean(t) => CleanIsSound(s, t);
    case _ =>
      assert InTurn(s.operations, e.t) && CloseSound(s.operations, e.t);
      PutIsSound(s, e.t, s.operations[e.t].(phase := if e.Finish? then Settled else TailSettled));
  }

  /** The state after these events, each possible when it happens. */
  predicate Run(s: State, events: seq<Event>, end: State)
    decreases |events|
  {
    if events == [] then s == end
    else Enabled(s, events[0]) && Run(Apply(s, events[0]), events[1..], end)
  }

  lemma {:induction false} RunIsSound(s: State, events: seq<Event>, end: State)
    requires Sound(s) && Run(s, events, end)
    ensures Sound(end)
    decreases |events|
  {
    if events != [] {
      StepIsSound(s, events[0]);
      RunIsSound(Apply(s, events[0]), events[1..], end);
    }
  }

  function AskedBy(e: Event): seq<(Option<string>, bool)> {
    match e
    case RunOnPage(page) => [(Some(page), false)]
    case RunShared(closes) => [(None, closes)]
    case _ => []
  }

  /** What was asked for, in order: on which page, or None for the shared state, and whether to close. */
  function Requested(events: seq<Event>): seq<(Option<string>, bool)> {
    if events == [] then [] else AskedBy(events[0]) + Requested(events[1..])
  }

  function Purposes(operations: seq<Operation>): seq<(Option<string>, bool)> {
    seq(|operations|, t requires 0 <= t < |operations| => (operations[t].page, operations[t].closes))
  }

  lemma StepRequests(s: State, e: Event)
    requires Enabled(s, e)
    ensures Purposes(Apply(s, e).operations) == Purposes(s.operations) + AskedBy(e)
  {
  }

  lemma Regroup(a: seq<(Option<string>, bool)>, b: seq<(Option<string>, bool)>, c: seq<(Option<string>, bool)>)
    ensures (a + b) + c == a + (b + c)
  {
  }

  lemma {:induction false} RunRequests(s: State, events: seq<Event>, end: State)
    requires Run(s, events, end)
    ensures Purposes(end.operations) == Purposes(s.operations) + Requested(events)
    decreases |events|
  {
    if events == [] {
      assert Purposes(s.operations) + [] == Purposes(s.operations);
    } else {
      StepRequests(s, events[0]);
      RunRequests(Apply(s, events[0]), events[1..], end);
      Regroup(Purposes(s.operations), AskedBy(events[0]), Requested(events[1..]));
    }
  }

  /** In every run the operations are those asked for, in the order they were. */
  lemma OperationsAreRequests(start: State, events: seq<Event>, end: State)
    requires start == INITIAL && Run(start, events, end)
    ensures Purposes(end.operations) == Requested(events)
  {
    RunRequests(start, events, end);
    assert Purposes(start.operations) == [];
  }

  lemma ReachedIsSound(start: State, events: seq<Event>, end: State)
    requires start == INITIAL && Run(start, events, end)
    ensures Sound(end)
  {
    forall page
      ensures ChainSound(start.operations, TailOf(start, page), page)
    {
    }
    RunIsSound(start, events, end);
  }

  // ---------------------------------------------------------------- every run

  /** In every run operations of one chain run in the order they were asked for, one at a time. */
  lemma OneAtATime(start: State, events: seq<Event>, end: State, r: Ticket, t: Ticket)
    requires start == INITIAL && Run(start, events, end)
    requires r < t < |end.operations| && end.operations[r].page == end.operations[t].page
    ensures end.operations[t].phase != Queued ==> end.operations[r].phase == TailSettled
  {
    ReachedIsSound(start, events, end);
    if end.operations[t].phase != Queued {
      DoneBefore(end.operations, t, r);
    }
  }

  /** A page has no chain only when nothing on it is outstanding; otherwise its chain ends in its last operation. */
  lemma ChainsAreLive(start: State, events: seq<Event>, end: State, page: string)
    requires start == INITIAL && Run(start, events, end)
    ensures page !in end.pageChains ==> AllDone(end.operations, |end.operations|, Some(page))
    ensures page in end.pageChains ==> Latest(end.operations, end.pageChains[page], Some(page))
  {
    ReachedIsSound(start, events, end);
    assert ChainSound(end.operations, TailOf(end, Some(page)), Some(page));
  }

  /** The backend is closed only after every page operation asked for before the close looked is over. */
  lemma CloseWaits(start: State, events: seq<Event>, end: State, t: Ticket, r: Ticket)
    requires start == INITIAL && Run(start, events, end)
    requires t < |end.operations| && end.operations[t].closes
             && end.operations[t].phase in {Working, Settled, TailSettled}
    requires r < end.operations[t].seen
    ensures r < |end.operations|
    ensures end.operations[r].page.Some? ==> end.operations[r].phase == TailSettled
  {
    ReachedIsSound(start, events, end);
    assert CloseSound(end.operations, t);
  }

  /**
   * Pages never wait for each other: whatever happens elsewhere, the first
   * operation of a page that is not over can take its next step.
   */
  lemma PagesAreIndependent(start: State, events: seq<Event>, end: State, t: Ticket) returns (e: Event)
    requires start == INITIAL && Run(start, events, end)
    requires t < |end.operations| && end.operations[t].page.Some? && end.operations[t].phase != TailSettled
    ensures Enabled(end, e) && (e.Begin? || e.Finish? || e.SettleTail?)
    ensures e.t <= t && end.operations[e.t].page == end.operations[t].page
  {
    ReachedIsSound(start, events, end);
    e := HeadMoves(end, t);
  }

  lemma {:induction false} HeadMoves(s: State, t: Ticket) returns (e: Event)
    requires OperationsSound(s.operations) && t < |s.operations|
    requires s.operations[t].page.Some? && s.operations[t].phase != TailSettled
    ensures Enabled(s, e) && (e.Begin? || e.Finish? || e.SettleTail?)
    ensures e.t <= t && s.operations[e.t].page == s.operations[t].page
  {
    assert Chained(s.operations, t) && CloseSound(s.operations, t);
    match s.operations[t].phase
    case Working => e := Finish(t);
    case Settled => e := SettleTail(t);
    case Queued =>
      if PreviousDone(s.operations, s.operations[t]) {
        e := Begin(t);
      } else {
        e := HeadMoves(s, s.operations[t].previous.value);
      }
  }

  /** No run gets stuck: while any operation is not over, some step is possible. */
  lemma NeverStuck(start: State, events: seq<Event>, end: State, t: Ticket) returns (e: Event)
    requires start == INITIAL && Run(start, events, end)
    requires t < |end.operations| && end.operations[t].phase != TailSettled
    ensures Enabled(end, e) && !e.RunOnPage? && !e.RunShared? && !e.Clean?
  {
    ReachedIsSound(start, events, end);
    e := SharedMoves(end, t);
  }

  lemma {:induction false} SharedMoves(s: State, t: Ticket) returns (e: Event)
    requires OperationsSound(s.operations) && t < |s.operations| && s.operations[t].phase != TailSettled
    ensures Enabled(s, e) && !e.RunOnPage? && !e.RunShared? && !e.Clean?
  {
    assert Chained(s.operations, t);
    match s.operations[t].phase
    case Working => e := Finish(t);
    case Settled => e := SettleTail(t);
    case Queued =>
      if PreviousDone(s.operations, s.operations[t]) {
        e := Begin(t);
      } else {
        e := SharedMoves(s, s.operations[t].previous.value);
      }
    case Draining =>
      if FoundDone(s.operations, s.operations[t].found) {
        e := Drained(t);
      } else {
        assert CloseSound(s.operations, t);
        var f :| f in s.operations[t].found && s.operations[f].phase != TailSettled;
        e := HeadMoves(s, f);
      }
  }

  /** How many steps an operation can still take. */
  function StepsLeft(operation: Operation): nat {
    match operation.phase
    case Queued => 5
    case Draining => 4
    case Working => 3
    case Settled => 2
    case TailSettled => if operation.cleaned then 0 else 1
  }

  function AllStepsLeft(operations: seq<Operation>): nat {
    if operations == [] then 0
    else AllStepsLeft(operations[..|operations| - 1]) + StepsLeft(operations[|operations| - 1])
  }

  lemma {:induction false} StepsUpdate(operations: seq<Operation>, t: Ticket, operation: Operation)
    requires t < |operations|
    ensures AllStepsLeft(operations[t := operation]) + StepsLeft(operations[t])
            == AllStepsLeft(operations) + StepsLeft(operation)
  {
    var n := |operations| - 1;
    if t < n {
      StepsUpdate(operations[..n], t, operation);
      assert operations[t := operation][..n] == operations[..n][t := operation];
    } else {
      assert operations[t := operation][..n] == operations[..n];
    }
  }

  /** Every step but a new request brings some operation nearer its end. */
  lemma StepDescends(s: State, e: Event)
    requires Enabled(s, e) && !e.RunOnPage? && !e.RunShared?
    ensures AllStepsLeft(Apply(s, e).operations) < AllStepsLeft(s.operations)
  {
    StepsUpdate(s.operations, e.t, Apply(s, e).operations[e.t]);
  }

  /** Without new requests every run ends. */
  lemma {:induction false} RunsEnd(s: State, events: seq<Event>, end: State)
    requires Run(s, events, end) && forall i :: 0 <= i < |events| ==> !events[i].RunOnPage? && !events[i].RunShared?
    ensures |events| <= AllStepsLeft(s.operations)
    decreases |events|
  {
    if events != [] {
      StepDescends(s, events[0]);
      RunsEnd(Apply(s, events[0]), events[1..], end);
    }
  }
}
