/**
 * What each operation of the worker store does after any others: when it is
 * refused, what it makes of the worker it is for, and what it leaves alone.
 */
module WorkerRuns {
  import opened WorkerStore
  import opened Wrappers

  /** The first run with this id is the k-th, and its first worker with this id the w-th. */
  predicate IsAt(file: File, runId: string, workerId: string, k: nat, w: nat) {
    && k < |file.runs| && file.runs[k].id == runId && (forall j :: 0 <= j < k ==> file.runs[j].id != runId)
    && w < |file.runs[k].workers| && file.runs[k].workers[w].id == workerId
    && forall j :: 0 <= j < w ==> file.runs[k].workers[j].id != workerId
  }

  lemma {:induction false} RunIndexIs(runs: seq<Run>, id: string, k: nat)
    requires k < |runs| && runs[k].id == id && forall j :: 0 <= j < k ==> runs[j].id != id
    ensures RunIndex(runs, id) == k
    decreases k
  {
    if k > 0 {
      RunIndexIs(runs[1..], id, k - 1);
    }
  }

  lemma {:induction false} WorkerIndexIs(workers: seq<Record>, id: string, w: nat)
    requires w < |workers| && workers[w].id == id && forall j :: 0 <= j < w ==> workers[j].id != id
    ensures WorkerIndex(workers, id) == w
    decreases w
  {
    if w > 0 {
      WorkerIndexIs(workers[1..], id, w - 1);
    }
  }

  /** The queue without its oldest read message. */
  predicate WithoutOldestRead(inbox: seq<Message>, room: seq<Message>, k: nat) {
    k < |inbox| && inbox[k].read && (forall j :: 0 <= j < k ==> !inbox[j].read) && room == inbox[..k] + inbox[k + 1..]
  }

  predicate SomeRead(inbox: seq<Message>) {
    exists k :: 0 <= k < |inbox| && inbox[k].read
  }

  lemma {:induction false} OldestReadIs(inbox: seq<Message>)
    ensures OldestRead(inbox) < |inbox| <==> SomeRead(inbox)
    ensures forall j :: 0 <= j < OldestRead(inbox) ==> !inbox[j].read
  {
    if inbox != [] && !inbox[0].read {
      OldestReadIs(inbox[1..]);
      assert forall k :: 0 < k < |inbox| ==> inbox[k] == inbox[1..][k - 1];
    }
  }

  /** A text of 1 to 4000 characters. */
  predicate TextFits(text: string) {
    1 <= |text| <= 4_000
  }

  /** Whether an operation on a worker is carried out. */
  predicate Carried(worker: Record, op: Operation)
    requires Addressed(op)
  {
    && !worker.state.Finished? && !worker.state.Failed?
    && (op.Send? ==> TextFits(op.text) && (|worker.inbox| < 200 || SomeRead(worker.inbox)))
    && (op.Finish? ==> TextFits(op.report))
  }

  /** What the operation makes of its worker. */
  ghost predicate Makes(before: Record, op: Operation, number: nat, after: Record)
    requires Addressed(op)
  {
    match op
    case Sleep(_, _) => after == before.(state := Sleeping)
    case Finish(_, _, report, failed) =>
      after == before.(state := if failed then Failed else Finished, result := Some(report))
    case Send(_, _, sender, text) =>
      exists room: seq<Message> ::
        && (if |before.inbox| < 200 then room == before.inbox else exists k :: WithoutOldestRead(before.inbox, room, k))
        && after == before.(state := Active, inbox := room + [Message(number, sender, text, false)],
                            received := before.received + [number])
  }

  lemma ChangedMakes(worker: Record, op: Operation, number: nat)
    requires Addressed(op) && !Malformed(op)
    ensures Changed(worker, op, number).Success? <==> Carried(worker, op)
    ensures Changed(worker, op, number).Success? ==> Makes(worker, op, number, Changed(worker, op, number).value)
  {
    OldestReadIs(worker.inbox);
    if op.Send? && Carried(worker, op) {
      SendMakes(worker, op, number);
    }
  }

  lemma SendMakes(worker: Record, op: Operation, number: nat)
    requires op.Send? && Carried(worker, op)
    ensures Changed(worker, op, number).Success? && Makes(worker, op, number, Changed(worker, op, number).value)
  {
    var k := OldestRead(worker.inbox);
    OldestReadIs(worker.inbox);
    if |worker.inbox| >= 200 {
      assert WithoutOldestRead(worker.inbox, WithRoom(worker.inbox), k);
    }
    var room := if |worker.inbox| >= 200 then WithRoom(worker.inbox) else worker.inbox;
    var after := Changed(worker, op, number).value;
    assert after == worker.(state := Active, inbox := room + [Message(number, op.sender, op.text, false)],
                            received := worker.received + [number]);
  }

  /** Of all runs and workers only this one is changed, and the run is parked when that ends its last worker. */
  predicate OnlyWorker(before: File, after: File, k: nat, w: nat) {
    && k < |before.runs| == |after.runs| && w < |before.runs[k].workers| == |after.runs[k].workers|
    && (forall j :: 0 <= j < |before.runs| && j != k ==> after.runs[j] == before.runs[j])
    && (forall j :: 0 <= j < |before.runs[k].workers| && j != w ==>
          after.runs[k].workers[j] == before.runs[k].workers[j])
    && after.runs[k].id == before.runs[k].id
  }

  /**
   * After any operations one that addresses a worker is carried out exactly when
   * the worker is not terminal, texts have their length and a full queue has a
   * read message; then the worker is what was asked for, and no other is changed.
   */
  lemma OperationMeans(limits: Limits, ops: seq<Operation>, op: Operation, k: nat, w: nat)
    requires Addressed(op) && IsAt(After(limits, ops), op.runId, op.workerId, k, w)
    ensures var (before, after) := (After(limits, ops), After(limits, ops + [op]));
            var worker := before.runs[k].workers[w];
            if Carried(worker, op) then
              && OnlyWorker(before, after, k, w) && Makes(worker, op, before.sent, after.runs[k].workers[w])
              && (after.runs[k].parked <==>
                    before.runs[k].parked
                    || (op.Finish? && forall x <- after.runs[k].workers :: IsTerminal(x.state)))
              && after.retirements ==
                   before.retirements + (if op.Finish? && worker.alias.Some? then [worker.alias.value] else [])
            else after == before
  {
    var before := After(limits, ops);
    EveryFileIsSound(limits, ops);
    RunIndexIs(before.runs, op.runId, k);
    WorkerIndexIs(before.runs[k].workers, op.workerId, w);
    AfterSnoc(limits, ops, op);
    if !Malformed(op) {
      ChangedMakes(before.runs[k].workers[w], op, before.sent);
    }
  }

  lemma AfterSnoc(limits: Limits, ops: seq<Operation>, op: Operation)
    ensures After(limits, ops + [op]) ==
            match Apply(After(limits, ops), limits, op)
            case Success(file) => file
            case Failure(_) => After(limits, ops)
  {
    assert (ops + [op])[..|ops|] == ops;
  }

  /** A status query leaves every message of the run read and shown, and nothing else changed. */
  lemma StatusMeans(limits: Limits, ops: seq<Operation>, runId: string, k: nat)
    requires var runs := After(limits, ops).runs;
             k < |runs| && runs[k].id == runId && forall j :: 0 <= j < k ==> runs[j].id != runId
    ensures var (before, after) := (After(limits, ops), After(limits, ops + [Status(runId)]));
            && |after.runs| == |before.runs|
            && (forall j :: 0 <= j < |before.runs| && j != k ==> after.runs[j] == before.runs[j])
            && AllShown(before.runs[k].workers, after.runs[k].workers)
  {
    var before := After(limits, ops);
    EveryFileIsSound(limits, ops);
    RunIndexIs(before.runs, runId, k);
    AfterSnoc(limits, ops, Status(runId));
    MarkAllShows(before.runs[k].workers);
    StatusRun(before, limits, runId, k);
  }

  lemma StatusRun(file: File, limits: Limits, runId: string, k: nat)
    requires |file.runs| <= limits.maxParkedRuns + 8 && k < |file.runs| && RunIndex(file.runs, runId) == k
    ensures Apply(file, limits, Status(runId)).Success?
    ensures Apply(file, limits, Status(runId)).value.runs ==
            file.runs[k := file.runs[k].(workers := MarkAll(file.runs[k].workers))]
  {
  }

  lemma MarkAllShows(workers: seq<Record>)
    ensures AllShown(workers, MarkAll(workers))
  {
    forall w | 0 <= w < |workers|
      ensures WasShown(workers[w], MarkAll(workers)[w])
    {
      var (before, after) := (workers[w], MarkAll(workers)[w]);
      forall i | 0 <= i < |before.inbox|
        ensures after.inbox[i] == before.inbox[i].(read := true) && before.inbox[i].number in after.shown
      {
        assert before.inbox[i] in before.inbox;
      }
    }
  }

  predicate AllShown(before: seq<Record>, after: seq<Record>) {
    |after| == |before| && forall w :: 0 <= w < |before| ==> WasShown(before[w], after[w])
  }

  predicate WasShown(before: Record, after: Record) {
    && after.state == before.state && after.result == before.result && after.alias == before.alias
    && |after.inbox| == |before.inbox|
    && forall i :: 0 <= i < |before.inbox| ==>
         after.inbox[i] == before.inbox[i].(read := true) && before.inbox[i].number in after.shown
  }

  /** `after` is `before` with one more run behind it, the oldest dropped beyond `n`. */
  predicate Joined(before: seq<Run>, run: Run, after: seq<Run>, n: nat) {
    && after != [] && after[|after| - 1] == run && |after| == Min(|before| + 1, n)
    && forall j :: 0 <= j < |after| - 1 ==> after[j] == before[|before| + 1 - |after| + j]
  }

  /**
   * Spawning adds a run of active workers with empty queues behind the others,
   * and drops the oldest beyond the bound.
   */
  lemma SpawnMeans(limits: Limits, ops: seq<Operation>, runId: string, workers: seq<(string, Option<string>)>)
    ensures var (before, after) := (After(limits, ops), After(limits, ops + [Spawn(runId, workers)]));
            if 1 <= |workers| <= 8 && |workers| <= limits.maxWorkers then
              && after.runs != [] && Fresh(after.runs[|after.runs| - 1].workers, workers)
              && Joined(before.runs, Run(runId, false, after.runs[|after.runs| - 1].workers), after.runs,
                        limits.maxParkedRuns + 8)
            else after == before
  {
    var before := After(limits, ops);
    EveryFileIsSound(limits, ops);
    AfterSnoc(limits, ops, Spawn(runId, workers));
    SpawnedActive(workers);
    SpawnRuns(before, limits, runId, workers);
    LastJoins(before.runs, Run(runId, false, Spawned(workers)), limits.maxParkedRuns + 8);
  }

  lemma SpawnRuns(file: File, limits: Limits, runId: string, workers: seq<(string, Option<string>)>)
    requires ActiveCount(Spawned(workers)) == |workers|
    ensures var result := Apply(file, limits, Spawn(runId, workers));
            if 1 <= |workers| <= 8 && |workers| <= limits.maxWorkers then
              && result.Success?
              && result.value.runs == Last(file.runs + [Run(runId, false, Spawned(workers))], limits.maxParkedRuns + 8)
            else result.Failure?
  {
  }

  lemma SpawnedActive(workers: seq<(string, Option<string>)>)
    ensures ActiveCount(Spawned(workers)) == |workers| && Fresh(Spawned(workers), workers)
  {
    ActiveAtMostAll(Spawned(workers));
  }

  lemma LastJoins(runs: seq<Run>, run: Run, n: nat)
    requires |runs| <= n && n > 0
    ensures Joined(runs, run, Last(runs + [run], n), n)
  {
    var kept := Last(runs + [run], n);
    if |runs| == n {
      assert kept == runs[1..] + [run];
    } else {
      assert kept == runs + [run];
    }
  }

  function Min(a: nat, b: nat): nat {
    if a < b then a else b
  }

  /** The workers asked for, active, nothing received. */
  predicate Fresh(records: seq<Record>, workers: seq<(string, Option<string>)>) {
    && |records| == |workers|
    && forall i :: 0 <= i < |workers| ==>
         records[i] == Record(workers[i].0, Active, workers[i].1, [], None, [], {})
  }
}
