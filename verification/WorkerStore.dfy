/**
 * src/agent/worker-store.ts: runs of workers with bounded inboxes, and the
 * fence of retired aliases.
 */
module WorkerStore {
  import opened Wrappers

  datatype Problem = NoSuchRun | NoSuchWorker | Terminated | QueueFull | Invalid | TooManyWorkers

  datatype State = Active | Sleeping | Finished | Failed

  datatype Sender = Prime | Worker

  /** `number` counts the messages of the store; it stands for the random id and the time of sending. */
  datatype Message = Message(number: nat, sender: Sender, text: string, read: bool)

  /** `received` records the numbers of all messages it was sent, `shown` those that a status call has returned. */
  datatype Record = Record(
    id: string,
    state: State,
    alias: Option<string>,
    inbox: seq<Message>,
    result: Option<string>,
    received: seq<nat>,
    shown: set<nat>)

  datatype Run = Run(id: string, parked: bool, workers: seq<Record>)

  /** `sent` numbers the messages, `retirements` records all aliases ever retired. */
  datatype File = File(runs: seq<Run>, retired: seq<string>, sent: nat, retirements: seq<string>)

  datatype Limits = Limits(maxWorkers: nat, maxParkedRuns: nat)

  const EMPTY := File([], [], 0, [])

  const MAX_QUEUE := 200

  const MAX_RETIRED := 200

  const MAX_TEXT := 4_000

  predicate IsTerminal(state: State) {
    state.Finished? || state.Failed?
  }

  function Last<T>(items: seq<T>, n: nat): seq<T> {
    if |items| <= n then items else items[|items| - n..]
  }

  // ---------------------------------------------------------------- finding

  /** The first run with this id, or the number of runs. */
  function RunIndex(runs: seq<Run>, id: string): (k: nat)
    ensures k <= |runs| && (k < |runs| ==> runs[k].id == id)
  {
    if runs == [] || runs[0].id == id then 0 else RunIndex(runs[1..], id) + 1
  }

  function WorkerIndex(workers: seq<Record>, id: string): (k: nat)
    ensures k <= |workers| && (k < |workers| ==> workers[k].id == id)
  {
    if workers == [] || workers[0].id == id then 0 else WorkerIndex(workers[1..], id) + 1
  }

  /** The oldest message that has been read, or the number of messages. */
  function OldestRead(inbox: seq<Message>): (k: nat)
    ensures k <= |inbox| && (k < |inbox| ==> inbox[k].read)
  {
    if inbox == [] || inbox[0].read then 0 else OldestRead(inbox[1..]) + 1
  }

  // ---------------------------------------------------------------- operations

  datatype Operation =
    | Spawn(runId: string, workers: seq<(string, Option<string>)>) // ids and aliases
    | Status(runId: string)
    | Send(runId: string, workerId: string, sender: Sender, text: string)
    | Sleep(runId: string, workerId: string)
    | Finish(runId: string, workerId: string, report: string, failed: bool)

  function Save(file: File, limits: Limits): File {
    file.(runs := Last(file.runs, limits.maxParkedRuns + 8), retired := Last(file.retired, MAX_RETIRED))
  }

  function Spawned(workers: seq<(string, Option<string>)>): seq<Record> {
    seq(|workers|, i requires 0 <= i < |workers| => Record(workers[i].0, Active, workers[i].1, [], None, [], {}))
  }

  function MarkRead(inbox: seq<Message>): seq<Message> {
    seq(|inbox|, i requires 0 <= i < |inbox| => inbox[i].(read := true))
  }

  function Numbers(inbox: seq<Message>): set<nat> {
    set m | m in inbox :: m.number
  }

  function Consumed(worker: Record): Record {
    worker.(inbox := MarkRead(worker.inbox), shown := worker.shown + Numbers(worker.inbox))
  }

  function MarkAll(workers: seq<Record>): seq<Record> {
    seq(|workers|, i requires 0 <= i < |workers| => Consumed(workers[i]))
  }

  /** Room for one more message, when the queue is full, is made only at the expense of one that was read. */
  function WithRoom(inbox: seq<Message>): seq<Message>
    requires OldestRead(inbox) < |inbox|
  {
    var k := OldestRead(inbox);
    inbox[..k] + inbox[k + 1..]
  }

  function Received(worker: Record, message: Message): Result<Record, Problem> {
    if IsTerminal(worker.state) then Failure(Terminated)
    else if |worker.inbox| >= MAX_QUEUE && OldestRead(worker.inbox) == |worker.inbox| then Failure(QueueFull)
    else
      var room := if |worker.inbox| >= MAX_QUEUE then WithRoom(worker.inbox) else worker.inbox;
      Success(worker.(inbox := room + [message], state := Active, received := worker.received + [message.number]))
  }

  predicate TextAllowed(text: string) {
    1 <= |text| <= MAX_TEXT
  }

  /** What the operation makes of the worker it is for; `number` is that of the next message. */
  function Changed(worker: Record, op: Operation, number: nat): Result<Record, Problem>
    requires Addressed(op)
  {
    match op
    case Send(_, _, sender, text) => Received(worker, Message(number, sender, text, false))
    case Sleep(_, _) =>
      if IsTerminal(worker.state) then Failure(Terminated) else Success(worker.(state := Sleeping))
    case Finish(_, _, report, failed) =>
      if IsTerminal(worker.state) then Failure(Terminated)
      else Success(worker.(state := if failed then Failed else Finished, result := Some(report)))
  }

  predicate AllTerminal(workers: seq<Record>) {
    forall i :: 0 <= i < |workers| ==> IsTerminal(workers[i].state)
  }

  function WithWorker(run: Run, w: nat, worker: Record, finishing: bool): Run
    requires w < |run.workers|
  {
    var workers := run.workers[w := worker];
    Run(run.id, run.parked || (finishing && AllTerminal(workers)), workers)
  }

  function ActiveCount(workers: seq<Record>): nat {
    if workers == [] then 0
    else ActiveCount(workers[..|workers| - 1]) + (if workers[|workers| - 1].state.Active? then 1 else 0)
  }

  predicate Addressed(op: Operation) {
    op.Send? || op.Sleep? || op.Finish?
  }

  /** `message`, `sleep` and `finish` address one worker. */
  predicate Malformed(op: Operation) {
    match op
    case Send(_, _, _, text) => !TextAllowed(text)
    case Finish(_, _, report, _) => !TextAllowed(report)
    case _ => false
  }

  /** The alias that finishing the worker retires. */
  function Gone(worker: Record, op: Operation): seq<string> {
    if op.Finish? && worker.alias.Some? then [worker.alias.value] else []
  }

  function ApplyToWorker(file: File, limits: Limits, op: Operation): Result<File, Problem>
    requires Addressed(op)
  {
    var k := RunIndex(file.runs, op.runId);
    if Malformed(op) then Failure(Invalid)
    else if k == |file.runs| then Failure(NoSuchRun)
    else
      var run := file.runs[k];
      var w := WorkerIndex(run.workers, op.workerId);
      if w == |run.workers| then Failure(NoSuchWorker)
      else
        match Changed(run.workers[w], op, file.sent)
        case Failure(problem) => Failure(problem)
        case Success(worker) =>
          Success(Save(File(file.runs[k := WithWorker(run, w, worker, op.Finish?)], file.retired + Gone(worker, op),
                            file.sent + 1, file.retirements + Gone(worker, op)), limits))
  }

  /** The file after the operation, or why it is refused. */
  function Apply(file: File, limits: Limits, op: Operation): Result<File, Problem> {
    match op
    case Spawn(runId, workers) =>
      if |workers| == 0 || |workers| > 8 then Failure(Invalid)
      else if ActiveCount(Spawned(workers)) > limits.maxWorkers then Failure(TooManyWorkers)
      else Success(Save(file.(runs := file.runs + [Run(runId, false, Spawned(workers))]), limits))
    case Status(runId) =>
      var k := RunIndex(file.runs, runId);
      if k == |file.runs| then Failure(NoSuchRun)
      else
        var run := file.runs[k].(workers := MarkAll(file.runs[k].workers));
        Success(Save(file.(runs := file.runs[k := run]), limits))
    case _ => ApplyToWorker(file, limits, op)
  }

  // ---------------------------------------------------------------- the store

  class Store {
    const limits: Limits
    var file: File

    constructor (limits: Limits)
      ensures this.limits == limits && file == EMPTY
    {
      this.limits := limits;
      file := EMPTY;
    }

    method ReadInbox(inbox: seq<Message>) returns (marked: seq<Message>)
      ensures marked == MarkRead(inbox)
    {
      marked := inbox;
      var i := 0;
      while i < |inbox|
        invariant 0 <= i <= |inbox| == |marked|
        invariant forall j :: 0 <= j < |inbox| ==> marked[j] == if j < i then inbox[j].(read := true) else inbox[j]
      {
        if !marked[i].read {
          marked := marked[i := marked[i].(read := true)];
        }
        i := i + 1;
      }
    }

    method GetStatus(runId: string) returns (problem: Option<Problem>)
      modifies this`file
      ensures Apply(old(file), limits, Status(runId))
              == if problem.Some? then Failure(problem.value) else Success(file)
      ensures problem.Some? ==> file == old(file)
    {
      var k := RunIndex(file.runs, runId);
      if k == |file.runs| {
        return Some(NoSuchRun);
      }
      var workers := file.runs[k].workers;
      var marked := workers;
      var i := 0;
      while i < |workers|
        invariant 0 <= i <= |workers| == |marked| && file == old(file)
        invariant forall j :: 0 <= j < |workers| ==>
                    marked[j] == if j < i then Consumed(workers[j]) else workers[j]
      {
        var inbox := ReadInbox(workers[i].inbox);
        marked := marked[i := workers[i].(inbox := inbox, shown := workers[i].shown + Numbers(workers[i].inbox))];
        i := i + 1;
      }
      assert marked == MarkAll(workers);
      file := Save(file.(runs := file.runs[k := file.runs[k].(workers := marked)]), limits);
      problem := None;
    }

    /** `message`, `sleep` and `finish`. */
    method ChangeWorker(op: Operation) returns (problem: Option<Problem>)
      requires Addressed(op)
      modifies this`file
      ensures Apply(old(file), limits, op) == if problem.Some? then Failure(problem.value) else Success(file)
      ensures problem.Some? ==> file == old(file)
    {
      if Malformed(op) {
        return Some(Invalid);
      }
      var k := RunIndex(file.runs, op.runId);
      if k == |file.runs| {
        return Some(NoSuchRun);
      }
      var run := file.runs[k];
      var w := WorkerIndex(run.workers, op.workerId);
      if w == |run.workers| {
        return Some(NoSuchWorker);
      }
      var changed := Changed(run.workers[w], op, file.sent);
      if changed.Failure? {
        return Some(changed.error);
      }
      var worker := changed.value;
      file := Save(File(file.runs[k := WithWorker(run, w, worker, op.Finish?)], file.retired + Gone(worker, op),
                        file.sent + 1, file.retirements + Gone(worker, op)), limits);
      problem := None;
    }

    method IsRetired(alias: string) returns (retired: bool)
      requires Sound(file, limits)
      ensures retired <==> LatelyRetired(file.retirements, alias)
    {
      retired := alias in file.retired;
      RetiredLately(file, limits, alias);
    }
  }

  // ---------------------------------------------------------------- what every operation keeps

  /** Messages stand in the order they were sent. */
  predicate InOrder(inbox: seq<Message>, sent: nat) {
    && (forall i :: 0 <= i < |inbox| ==> inbox[i].number < sent)
    && (forall i, j :: 0 <= i < j < |inbox| ==> inbox[i].number < inbox[j].number)
  }

  /** The message is in the inbox, still unread. */
  predicate Unread(inbox: seq<Message>, number: nat) {
    exists j :: 0 <= j < |inbox| && inbox[j].number == number && !inbox[j].read
  }

  predicate ReadOnesShown(inbox: seq<Message>, shown: set<nat>) {
    forall j :: 0 <= j < |inbox| && inbox[j].read ==> inbox[j].number in shown
  }

  /** No unread message is lost: whatever was sent has been shown or is in the inbox. */
  predicate NothingLost(worker: Record) {
    forall i :: 0 <= i < |worker.received| ==>
      worker.received[i] in worker.shown || Unread(worker.inbox, worker.received[i])
  }

  predicate WorkerSound(worker: Record, sent: nat) {
    && |worker.inbox| <= MAX_QUEUE && InOrder(worker.inbox, sent)
    && ReadOnesShown(worker.inbox, worker.shown) && NothingLost(worker)
  }

  predicate RunSound(run: Run, limits: Limits, sent: nat) {
    && 1 <= |run.workers| <= limits.maxWorkers
    && (forall i :: 0 <= i < |run.workers| ==> WorkerSound(run.workers[i], sent))
    && (run.parked <==> AllTerminal(run.workers))
  }

  predicate Sound(file: File, limits: Limits) {
    && |file.runs| <= limits.maxParkedRuns + 8
    && (forall k :: 0 <= k < |file.runs| ==> RunSound(file.runs[k], limits, file.sent))
    && file.retired == Last(file.retirements, MAX_RETIRED)
  }

  lemma {:induction false} ActiveAtMostAll(workers: seq<Record>)
    ensures ActiveCount(workers) <= |workers|
    ensures (forall i :: 0 <= i < |workers| ==> workers[i].state.Active?) ==> ActiveCount(workers) == |workers|
  {
    if workers != [] {
      ActiveAtMostAll(workers[..|workers| - 1]);
    }
  }

  lemma RoomAt(inbox: seq<Message>, i: nat)
    requires OldestRead(inbox) < |inbox| && i < |inbox| - 1
    ensures |WithRoom(inbox)| == |inbox| - 1
    ensures WithRoom(inbox)[i] == inbox[if i < OldestRead(inbox) then i else i + 1]
  {
  }

  lemma RoomSound(inbox: seq<Message>, sent: nat)
    requires InOrder(inbox, sent) && OldestRead(inbox) < |inbox|
    ensures InOrder(WithRoom(inbox), sent) && |WithRoom(inbox)| == |inbox| - 1
  {
    var room := WithRoom(inbox);
    forall i | 0 <= i < |room|
      ensures room[i].number < sent
    {
      RoomAt(inbox, i);
    }
    forall i, j | 0 <= i < j < |room|
      ensures room[i].number < room[j].number
    {
      RoomAt(inbox, i);
      RoomAt(inbox, j);
    }
  }

  lemma RoomKeepsShown(inbox: seq<Message>, shown: set<nat>)
    requires OldestRead(inbox) < |inbox| && ReadOnesShown(inbox, shown)
    ensures ReadOnesShown(WithRoom(inbox), shown)
  {
    forall i | 0 <= i < |WithRoom(inbox)| && WithRoom(inbox)[i].read
      ensures WithRoom(inbox)[i].number in shown
    {
      RoomAt(inbox, i);
    }
  }

  lemma RoomKeepsUnread(inbox: seq<Message>, number: nat)
    requires OldestRead(inbox) < |inbox| && Unread(inbox, number)
    ensures Unread(WithRoom(inbox), number)
  {
    var j :| 0 <= j < |inbox| && inbox[j].number == number && !inbox[j].read;
    RoomAt(inbox, if j < OldestRead(inbox) then j else j - 1);
  }

  /** The worker with room for one more message. */
  lemma RoomedSound(worker: Record, sent: nat)
    requires WorkerSound(worker, sent) && OldestRead(worker.inbox) < |worker.inbox|
    ensures WorkerSound(worker.(inbox := WithRoom(worker.inbox)), sent)
  {
    RoomSound(worker.inbox, sent);
    RoomKeepsShown(worker.inbox, worker.shown);
    forall i | 0 <= i < |worker.received| && worker.received[i] !in worker.shown
      ensures Unread(WithRoom(worker.inbox), worker.received[i])
    {
      RoomKeepsUnread(worker.inbox, worker.received[i]);
    }
  }

  lemma AppendedInOrder(inbox: seq<Message>, message: Message, sent: nat)
    requires InOrder(inbox, sent) && message.number == sent
    ensures InOrder(inbox + [message], sent + 1)
  {
  }

  lemma AppendedUnread(inbox: seq<Message>, message: Message, number: nat)
    requires Unread(inbox, number) || (message.number == number && !message.read)
    ensures Unread(inbox + [message], number)
  {
    var after := inbox + [message];
    if j :| 0 <= j < |inbox| && inbox[j].number == number && !inbox[j].read {
      assert after[j] == inbox[j];
    } else {
      assert after[|inbox|] == message;
    }
  }

  lemma AppendedLosesNothing(worker: Record, message: Message, after: Record)
    requires NothingLost(worker) && !message.read && after.shown == worker.shown
    requires after.inbox == worker.inbox + [message] && after.received == worker.received + [message.number]
    ensures NothingLost(after)
  {
    forall i | 0 <= i < |after.received| && after.received[i] !in after.shown
      ensures Unread(after.inbox, after.received[i])
    {
      AppendedUnread(worker.inbox, message, after.received[i]);
    }
  }

  lemma ReceivedSound(worker: Record, message: Message, sent: nat)
    requires WorkerSound(worker, sent) && message.number == sent && !message.read && Received(worker, message).Success?
    ensures WorkerSound(Received(worker, message).value, sent + 1)
  {
    var roomed := worker;
    if |worker.inbox| >= MAX_QUEUE {
      RoomSound(worker.inbox, sent);
      RoomedSound(worker, sent);
      roomed := worker.(inbox := WithRoom(worker.inbox));
    }
    var after := Received(worker, message).value;
    assert after.inbox == roomed.inbox + [message];
    AppendedInOrder(roomed.inbox, message, sent);
    AppendedLosesNothing(roomed, message, after);
  }

  lemma ConsumedSound(worker: Record, sent: nat)
    requires WorkerSound(worker, sent)
    ensures WorkerSound(Consumed(worker), sent)
  {
    var after := Consumed(worker);
    forall j | 0 <= j < |after.inbox|
      ensures after.inbox[j].number in after.shown
    {
      assert worker.inbox[j] in worker.inbox;
    }
    forall i | 0 <= i < |worker.received|
      ensures worker.received[i] in after.shown
    {
      if j :| 0 <= j < |worker.inbox| && worker.inbox[j].number == worker.received[i] && !worker.inbox[j].read {
        assert worker.inbox[j] in worker.inbox;
      }
    }
  }

  lemma ChangedSound(worker: Record, op: Operation, sent: nat)
    requires Addressed(op) && WorkerSound(worker, sent) && Changed(worker, op, sent).Success?
    ensures WorkerSound(Changed(worker, op, sent).value, sent + 1)
    ensures !IsTerminal(worker.state)
    ensures IsTerminal(Changed(worker, op, sent).value.state) <==> op.Finish?
  {
    if op.Send? {
      ReceivedSound(worker, Message(sent, op.sender, op.text, false), sent);
    }
  }

  lemma RunChangedSound(run: Run, limits: Limits, op: Operation, sent: nat, w: nat)
    requires Addressed(op) && RunSound(run, limits, sent) && w < |run.workers|
    requires Changed(run.workers[w], op, sent).Success?
    ensures RunSound(WithWorker(run, w, Changed(run.workers[w], op, sent).value, op.Finish?), limits, sent + 1)
  {
    assert WorkerSound(run.workers[w], sent);
    ChangedSound(run.workers[w], op, sent);
    var worker := Changed(run.workers[w], op, sent).value;
    var workers := run.workers[w := worker];
    forall i | 0 <= i < |workers|
      ensures WorkerSound(workers[i], sent + 1)
    {
      assert WorkerSound(run.workers[i], sent);
    }
    if AllTerminal(workers) {
      assert IsTerminal(workers[w].state);
    }
  }

  lemma LaterSound(run: Run, limits: Limits, sent: nat)
    requires RunSound(run, limits, sent)
    ensures RunSound(run, limits, sent + 1)
  {
    forall i | 0 <= i < |run.workers|
      ensures WorkerSound(run.workers[i], sent + 1)
    {
      assert WorkerSound(run.workers[i], sent);
    }
  }

  lemma MarkedSound(run: Run, limits: Limits, sent: nat)
    requires RunSound(run, limits, sent)
    ensures RunSound(run.(workers := MarkAll(run.workers)), limits, sent)
  {
    var marked := MarkAll(run.workers);
    forall i | 0 <= i < |marked|
      ensures WorkerSound(marked[i], sent)
    {
      ConsumedSound(run.workers[i], sent);
    }
    assert AllTerminal(marked) <==> AllTerminal(run.workers) by {
      assert forall i :: 0 <= i < |marked| ==> marked[i].state == run.workers[i].state;
      if AllTerminal(marked) {
        assert forall i :: 0 <= i < |marked| ==> IsTerminal(marked[i].state);
      }
    }
  }

  lemma SpawnedSound(runId: string, workers: seq<(string, Option<string>)>, limits: Limits, sent: nat)
    requires 1 <= |workers| && ActiveCount(Spawned(workers)) <= limits.maxWorkers
    ensures RunSound(Run(runId, false, Spawned(workers)), limits, sent)
  {
    var spawned := Spawned(workers);
    ActiveAtMostAll(spawned);
    assert !IsTerminal(spawned[0].state);
  }

  lemma LastLast<T>(items: seq<T>, more: seq<T>, n: nat)
    ensures Last(Last(items, n) + more, n) == Last(items + more, n)
  {
  }

  lemma LastMember<T>(items: seq<T>, n: nat, j: nat)
    requires j < |Last(items, n)|
    ensures |Last(items, n)| <= n && |Last(items, n)| <= |items|
    ensures Last(items, n)[j] == items[|items| - |Last(items, n)| + j]
  {
  }

  predicate RunsSound(runs: seq<Run>, limits: Limits, sent: nat) {
    forall k :: 0 <= k < |runs| ==> RunSound(runs[k], limits, sent)
  }

  lemma SaveSound(file: File, limits: Limits, retired: seq<string>)
    requires RunsSound(file.runs, limits, file.sent)
    requires |retired| <= |file.retirements| && file.retirements == retired + file.retirements[|retired|..]
    requires file.retired == Last(retired, MAX_RETIRED) + file.retirements[|retired|..]
    ensures Sound(Save(file, limits), limits)
  {
    LastLast(retired, file.retirements[|retired|..], MAX_RETIRED);
    var runs := Save(file, limits).runs;
    forall k | 0 <= k < |runs|
      ensures RunSound(runs[k], limits, file.sent)
    {
      LastMember(file.runs, limits.maxParkedRuns + 8, k);
    }
  }

  lemma SpawnKeepsSound(file: File, limits: Limits, runId: string, workers: seq<(string, Option<string>)>)
    requires Sound(file, limits) && 1 <= |workers| && ActiveCount(Spawned(workers)) <= limits.maxWorkers
    ensures Sound(Save(file.(runs := file.runs + [Run(runId, false, Spawned(workers))]), limits), limits)
  {
    SpawnedSound(runId, workers, limits, file.sent);
    var spawned := file.(runs := file.runs + [Run(runId, false, Spawned(workers))]);
    assert RunsSound(spawned.runs, limits, file.sent);
    SaveSound(spawned, limits, file.retirements);
  }

  lemma StatusKeepsSound(file: File, limits: Limits, k: nat)
    requires Sound(file, limits) && k < |file.runs|
    ensures var run := file.runs[k].(workers := MarkAll(file.runs[k].workers));
            Sound(Save(file.(runs := file.runs[k := run]), limits), limits)
  {
    MarkedSound(file.runs[k], limits, file.sent);
    var run := file.runs[k].(workers := MarkAll(file.runs[k].workers));
    assert RunsSound(file.runs[k := run], limits, file.sent);
    SaveSound(file.(runs := file.runs[k := run]), limits, file.retirements);
  }

  /** Every operation keeps the bounds of every run. */
  lemma ApplyKeepsSound(file: File, limits: Limits, op: Operation)
    requires Sound(file, limits) && Apply(file, limits, op).Success?
    ensures Sound(Apply(file, limits, op).value, limits)
  {
    if op.Spawn? {
      SpawnKeepsSound(file, limits, op.runId, op.workers);
    } else if op.Status? {
      StatusKeepsSound(file, limits, RunIndex(file.runs, op.runId));
    } else {
      var k := RunIndex(file.runs, op.runId);
      ChangeKeepsSound(file, limits, op, k, WorkerIndex(file.runs[k].workers, op.workerId));
    }
  }

  lemma ChangeKeepsSound(file: File, limits: Limits, op: Operation, k: nat, w: nat)
    requires Sound(file, limits) && Addressed(op) && k < |file.runs| && w < |file.runs[k].workers|
    requires Changed(file.runs[k].workers[w], op, file.sent).Success?
    ensures var worker := Changed(file.runs[k].workers[w], op, file.sent).value;
            var changed := File(file.runs[k := WithWorker(file.runs[k], w, worker, op.Finish?)],
                                file.retired + Gone(worker, op), file.sent + 1,
                                file.retirements + Gone(worker, op));
            Sound(Save(changed, limits), limits)
  {
    var worker := Changed(file.runs[k].workers[w], op, file.sent).value;
    var run := WithWorker(file.runs[k], w, worker, op.Finish?);
    var runs := file.runs[k := run];
    RunChangedSound(file.runs[k], limits, op, file.sent, w);
    forall j | 0 <= j < |runs|
      ensures RunSound(runs[j], limits, file.sent + 1)
    {
      if j != k {
        LaterSound(file.runs[j], limits, file.sent);
      }
    }
    var gone := Gone(worker, op);
    assert (file.retirements + gone)[|file.retirements|..] == gone;
    SaveSound(File(runs, file.retired + gone, file.sent + 1, file.retirements + gone), limits, file.retirements);
  }

  // ---------------------------------------------------------------- every run

  /** Operations that are refused change nothing. */
  function After(limits: Limits, ops: seq<Operation>): File {
    if ops == [] then EMPTY
    else
      var before := After(limits, ops[..|ops| - 1]);
      match Apply(before, limits, ops[|ops| - 1])
      case Success(file) => file
      case Failure(_) => before
  }

  lemma {:induction false} EveryFileIsSound(limits: Limits, ops: seq<Operation>)
    ensures Sound(After(limits, ops), limits)
  {
    if ops != [] {
      EveryFileIsSound(limits, ops[..|ops| - 1]);
      var before := After(limits, ops[..|ops| - 1]);
      if Apply(before, limits, ops[|ops| - 1]).Success? {
        ApplyKeepsSound(before, limits, ops[|ops| - 1]);
      }
    }
  }

  /**
   * After any operations every run that is kept has at most `maxWorkers`
   * workers that are active, inboxes within 200 messages in send order, and
   * is parked exactly when all its workers are terminal.
   */
  lemma BoundsHold(limits: Limits, ops: seq<Operation>, k: nat)
    requires k < |After(limits, ops).runs|
    ensures var run := After(limits, ops).runs[k];
            && ActiveCount(run.workers) <= limits.maxWorkers
            && (run.parked <==> AllTerminal(run.workers))
            && forall i :: 0 <= i < |run.workers| ==> WorkerSound(run.workers[i], After(limits, ops).sent)
  {
    EveryFileIsSound(limits, ops);
    assert RunSound(After(limits, ops).runs[k], limits, After(limits, ops).sent);
    ActiveAtMostAll(After(limits, ops).runs[k].workers);
  }

  /** The alias is that of one of the last 200 retirements. */
  predicate LatelyRetired(retirements: seq<string>, alias: string) {
    exists i :: 0 <= i < |retirements| && |retirements| - i <= MAX_RETIRED && retirements[i] == alias
  }

  lemma RetiredLately(file: File, limits: Limits, alias: string)
    requires Sound(file, limits)
    ensures alias in file.retired <==> LatelyRetired(file.retirements, alias)
  {
    var dropped := |file.retirements| - |file.retired|;
    assert forall j :: 0 <= j < |file.retired| ==> file.retired[j] == file.retirements[dropped + j];
    if alias in file.retired {
      var j :| 0 <= j < |file.retired| && file.retired[j] == alias;
      assert file.retirements[dropped + j] == alias;
    }
    if i :| 0 <= i < |file.retirements| && |file.retirements| - i <= MAX_RETIRED && file.retirements[i] == alias {
      assert file.retired[i - dropped] == alias;
    }
  }

  /** An alias is fenced off exactly while it is among the last 200 retirements. */
  lemma RetiredAreLast(limits: Limits, ops: seq<Operation>, alias: string)
    ensures var file := After(limits, ops);
            Sound(file, limits) && (alias in file.retired <==> LatelyRetired(file.retirements, alias))
  {
    EveryFileIsSound(limits, ops);
    RetiredLately(After(limits, ops), limits, alias);
  }

  // ---------------------------------------------------------------- what a step does to a worker

  /** A final state stays, and what was sent or shown is not forgotten. */
  predicate Evolves(before: Record, after: Record) {
    && after.id == before.id && after.alias == before.alias
    && (IsTerminal(before.state) ==> after.state == before.state && after.result == before.result)
    && before.received <= after.received && before.shown <= after.shown
  }

  predicate RunEvolves(before: Run, after: Run) {
    && after.id == before.id && |after.workers| == |before.workers|
    && forall i :: 0 <= i < |before.workers| ==> Evolves(before.workers[i], after.workers[i])
  }

  lemma SameEvolves(run: Run)
    ensures RunEvolves(run, run)
  {
  }

  lemma ReplacedEvolves(runs: seq<Run>, at: nat, changed: Run, cap: nat, j: nat) returns (k: nat)
    requires at < |runs| && RunEvolves(runs[at], changed) && j < |Last(runs[at := changed], cap)|
    ensures k < |runs| && RunEvolves(runs[k], Last(runs[at := changed], cap)[j])
  {
    var after := runs[at := changed];
    LastMember(after, cap, j);
    k := |after| - |Last(after, cap)| + j;
    if k != at {
      SameEvolves(runs[k]);
    }
  }

  lemma AppendedEvolves(runs: seq<Run>, added: Run, cap: nat, j: nat) returns (k: nat)
    requires j < |Last(runs + [added], cap)|
    ensures k <= |runs| && (k < |runs| ==> RunEvolves(runs[k], Last(runs + [added], cap)[j]))
  {
    var after := runs + [added];
    LastMember(after, cap, j);
    k := |after| - |Last(after, cap)| + j;
    if k < |runs| {
      SameEvolves(runs[k]);
    }
  }

  lemma StatusRuns(file: File, limits: Limits, op: Operation, after: File)
    requires op.Status? && Apply(file, limits, op) == Success(after)
    ensures var at := RunIndex(file.runs, op.runId);
            at < |file.runs| && var changed := file.runs[at].(workers := MarkAll(file.runs[at].workers));
            after.runs == Last(file.runs[at := changed], limits.maxParkedRuns + 8)
  {
  }

  lemma ChangeRuns(file: File, limits: Limits, op: Operation, after: File)
    requires Addressed(op) && ApplyToWorker(file, limits, op) == Success(after)
    ensures var at := RunIndex(file.runs, op.runId);
            at < |file.runs| &&
            var w := WorkerIndex(file.runs[at].workers, op.workerId);
            w < |file.runs[at].workers| && Changed(file.runs[at].workers[w], op, file.sent).Success? &&
            var worker := Changed(file.runs[at].workers[w], op, file.sent).value;
            var run := WithWorker(file.runs[at], w, worker, op.Finish?);
            after.runs == Last(file.runs[at := run], limits.maxParkedRuns + 8)
  {
  }

  /**
   * Whatever operation succeeds, each run kept in the file is the new one or
   * one that was there before, and its workers have left no final state and
   * forgotten no message; `k` is where that run was.
   */
  lemma RunsEvolve(file: File, limits: Limits, op: Operation, after: File, j: nat) returns (k: nat)
    requires Apply(file, limits, op) == Success(after) && j < |after.runs|
    ensures k <= |file.runs| && (k == |file.runs| ==> op.Spawn?)
    ensures k < |file.runs| ==> RunEvolves(file.runs[k], after.runs[j])
  {
    if op.Spawn? {
      k := AppendedEvolves(file.runs, Run(op.runId, false, Spawned(op.workers)), limits.maxParkedRuns + 8, j);
    } else {
      var at := RunIndex(file.runs, op.runId);
      if op.Status? {
        StatusRuns(file, limits, op, after);
      } else {
        ChangeRuns(file, limits, op, after);
      }
      var changed := ChangedRun(file, op, at);
      k := ReplacedEvolves(file.runs, at, changed, limits.maxParkedRuns + 8, j);
    }
  }

  lemma ChangedRun(file: File, op: Operation, at: nat) returns (changed: Run)
    requires at < |file.runs| && !op.Spawn?
    requires Addressed(op) ==>
               var w := WorkerIndex(file.runs[at].workers, op.workerId);
               w < |file.runs[at].workers| && Changed(file.runs[at].workers[w], op, file.sent).Success?
    ensures changed == if op.Status? then file.runs[at].(workers := MarkAll(file.runs[at].workers))
                       else
                         var w := WorkerIndex(file.runs[at].workers, op.workerId);
                         var worker := Changed(file.runs[at].workers[w], op, file.sent).value;
                         WithWorker(file.runs[at], w, worker, op.Finish?)
    ensures RunEvolves(file.runs[at], changed)
  {
    var run := file.runs[at];
    if op.Status? {
      changed := run.(workers := MarkAll(run.workers));
      forall i | 0 <= i < |run.workers|
        ensures Evolves(run.workers[i], changed.workers[i])
      {
        assert changed.workers[i] == Consumed(run.workers[i]);
      }
    } else {
      var w := WorkerIndex(run.workers, op.workerId);
      var worker := Changed(run.workers[w], op, file.sent).value;
      changed := WithWorker(run, w, worker, op.Finish?);
      SameEvolves(run);
      assert Evolves(run.workers[w], worker);
    }
  }

  lemma EvolvesTransitive(a: Run, b: Run, c: Run)
    requires RunEvolves(a, b) && RunEvolves(b, c)
    ensures RunEvolves(a, c)
  {
    forall i | 0 <= i < |a.workers|
      ensures Evolves(a.workers[i], c.workers[i])
    {
      assert Evolves(a.workers[i], b.workers[i]) && Evolves(b.workers[i], c.workers[i]);
    }
  }

  /**
   * `finished` and `failed` are final, and no message is forgotten, over any
   * further operations; `k` is where the run was before them, or past the end
   * if it is newer.
   */
  lemma {:induction false} FinalStatesStay(limits: Limits, ops: seq<Operation>, more: seq<Operation>, j: nat)
    returns (k: nat)
    requires j < |After(limits, ops + more).runs|
    ensures k <= |After(limits, ops).runs|
    ensures k < |After(limits, ops).runs| ==> RunEvolves(After(limits, ops).runs[k], After(limits, ops + more).runs[j])
    decreases |more|
  {
    var all := ops + more;
    if more == [] {
      assert all == ops;
      k := j;
      SameEvolves(After(limits, ops).runs[k]);
    } else {
      var op := more[|more| - 1];
      var init := more[..|more| - 1];
      assert all[..|all| - 1] == ops + init && all[|all| - 1] == op;
      var before := After(limits, ops + init);
      var m := j;
      if Apply(before, limits, op).Success? {
        m := RunsEvolve(before, limits, op, After(limits, all), j);
      } else {
        SameEvolves(before.runs[j]);
      }
      k := |After(limits, ops).runs|;
      if m < |before.runs| {
        k := FinalStatesStay(limits, ops, init, m);
        if k < |After(limits, ops).runs| {
          EvolvesTransitive(After(limits, ops).runs[k], before.runs[m], After(limits, all).runs[j]);
        }
      }
    }
  }

  /**
   * No unread message is ever dropped: after any operations each message that
   * a kept worker was sent has been shown, or is unread in its inbox.
   */
  lemma NoUnreadLost(limits: Limits, ops: seq<Operation>, k: nat, w: nat, number: nat)
    requires k < |After(limits, ops).runs| && w < |After(limits, ops).runs[k].workers|
    requires number in After(limits, ops).runs[k].workers[w].received
    ensures var worker := After(limits, ops).runs[k].workers[w];
            number in worker.shown || Unread(worker.inbox, number)
  {
    BoundsHold(limits, ops, k);
  }
}
