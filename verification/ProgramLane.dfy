/**
 * The physical lane of src/computer/computer-runtime.ts: tasks that touch the
 * inputs run one after another, and a program that holds the lane runs its
 * session calls one after another in a lane of its own.
 */
module ProgramLane {
  import opened Wrappers

  /** One `run` of a lane: its gate is unreleased until the work has settled. */
  datatype Phase = Waiting | Running | Released

  type Lane = seq<Phase>

  /** The promise `previous` that entry `i` waits for: it settles when all earlier gates are released. */
  predicate TailSettled(lane: Lane, i: nat)
    requires i <= |lane|
  {
    forall j :: 0 <= j < i ==> lane[j] == Released
  }

  /** A plain task asks the helper for one thing after another, as single actions, `run` and `close` do. */
  datatype Kind = Plain | Program

  /** `drain` is the place in the lane of the empty run that waits for all calls. */
  datatype Session = Session(accepting: bool, aborted: bool, lane: Lane, drain: Option<nat>)

  /** `asked` counts the requests of a plain task. */
  datatype Task = Task(kind: Kind, begun: bool, session: Session, asked: nat)

  /** What is asked of the native helper: by a plain task, by a session call, or the final release of a program. */
  datatype Part = Step(n: nat) | Call(i: nat) | Release

  datatype Sent = Sent(ticket: nat, part: Part)

  /** `log` and `cancelled` (the length of the log when a session was cancelled) record what has happened. */
  datatype State = State(
    lane: Lane,
    tasks: seq<Task>,
    inFlight: seq<Sent>,
    log: seq<Sent>,
    cancelled: map<nat, nat>)

  const CLOSED := Session(false, false, [], None)

  const INITIAL := State([], [], [], [], map[])

  /** What a session call does once it may run: fail at once, wait without the helper, or send its request. */
  datatype Work = Rejects | Sleeps | Sends

  datatype Event =
    | Enter(kind: Kind)
    | Begin(ticket: nat, enabled: bool)
    | Ask(ticket: nat)
    | Leave(ticket: nat)
    | CallSession(ticket: nat)
    | Cancel(ticket: nat)
    | WorkReturns(ticket: nat)
    | BeginCall(ticket: nat, i: nat, work: Work)
    | SleepEnds(ticket: nat, i: nat)
    | Reply(k: nat)

  // ---------------------------------------------------------------- the steps

  function Send(s: State, sent: Sent): State {
    s.(inFlight := s.inFlight + [sent], log := s.log + [sent])
  }

  function WithSession(s: State, ticket: nat, session: Session): State
    requires ticket < |s.tasks|
  {
    s.(tasks := s.tasks[ticket := s.tasks[ticket].(session := session)])
  }

  function AfterEnter(s: State, kind: Kind): State {
    s.(lane := s.lane + [Waiting], tasks := s.tasks + [Task(kind, false, CLOSED, 0)])
  }

  /** The work starts by checking once more that the runtime is enabled. */
  function AfterBegin(s: State, ticket: nat, enabled: bool): State
    requires ticket < |s.lane| == |s.tasks|
  {
    var task := s.tasks[ticket];
    if !enabled then s.(lane := s.lane[ticket := Released])
    else
      var open := if task.kind.Program? then Session(true, false, [], None) else CLOSED;
      s.(lane := s.lane[ticket := Running], tasks := s.tasks[ticket := Task(task.kind, true, open, task.asked)])
  }

  /** A plain task sends its next request. */
  function AfterAsk(s: State, ticket: nat): State
    requires ticket < |s.tasks|
  {
    var task := s.tasks[ticket];
    Send(s.(tasks := s.tasks[ticket := task.(asked := task.asked + 1)]), Sent(ticket, Step(task.asked)))
  }

  /** The work of a task has settled. */
  function AfterLeave(s: State, ticket: nat): State
    requires ticket < |s.lane|
  {
    s.(lane := s.lane[ticket := Released])
  }

  /** A call on a session that accepts no more is rejected at once. */
  function AfterCall(s: State, ticket: nat): State
    requires ticket < |s.tasks|
  {
    var session := s.tasks[ticket].session;
    if !session.accepting then s else WithSession(s, ticket, session.(lane := session.lane + [Waiting]))
  }

  function AfterCancel(s: State, ticket: nat): State
    requires ticket < |s.tasks|
  {
    var session := s.tasks[ticket].session;
    WithSession(s, ticket, session.(accepting := false, aborted := true)).(
      cancelled := if ticket in s.cancelled then s.cancelled else s.cancelled[ticket := |s.log|])
  }

  function AfterWork(s: State, ticket: nat): State
    requires ticket < |s.tasks|
  {
    var session := s.tasks[ticket].session;
    WithSession(s, ticket,
      session.(accepting := false, lane := session.lane + [Waiting], drain := Some(|session.lane|)))
  }

  function AfterBeginCall(s: State, ticket: nat, i: nat, work: Work): State
    requires ticket < |s.tasks| && i < |s.tasks[ticket].session.lane|
  {
    var session := s.tasks[ticket].session;
    var past := session.(lane := session.lane[i := Released]);
    if session.drain == Some(i) then
      Send(WithSession(s, ticket, past.(aborted := true)), Sent(ticket, Release))
    else if session.aborted || work.Rejects? then WithSession(s, ticket, past)
    else
      var running := WithSession(s, ticket, session.(lane := session.lane[i := Running]));
      if work.Sleeps? then running else Send(running, Sent(ticket, Call(i)))
  }

  function AfterSleep(s: State, ticket: nat, i: nat): State
    requires ticket < |s.tasks| && i < |s.tasks[ticket].session.lane|
  {
    var session := s.tasks[ticket].session;
    WithSession(s, ticket, session.(lane := session.lane[i := Released]))
  }

  function AfterReply(s: State, k: nat): State
    requires k < |s.inFlight|
  {
    var Sent(ticket, part) := s.inFlight[k];
    var answered := s.(inFlight := s.inFlight[..k] + s.inFlight[k + 1..]);
    match part
    case Call(i) =>
      if ticket < |s.tasks| && i < |s.tasks[ticket].session.lane| then AfterSleep(answered, ticket, i) else answered
    case Release => if ticket < |s.lane| then AfterLeave(answered, ticket) else answered
    case Step(_) => answered
  }

  /** A plain task goes on when its last request has been answered. */
  predicate MayAsk(s: State, ticket: nat) {
    && ticket < |s.lane| == |s.tasks| && s.lane[ticket] == Running && s.tasks[ticket].kind.Plain?
    && forall k :: 0 <= k < |s.inFlight| ==> s.inFlight[k].ticket != ticket
  }

  /**
   * A promise reaction runs once what it waits for has settled; the program's
   * own code may call and return while it runs.
   */
  predicate Enabled(s: State, e: Event) {
    match e
    case Enter(_) => true
    case Begin(ticket, _) => ticket < |s.lane| == |s.tasks| && s.lane[ticket] == Waiting && TailSettled(s.lane, ticket)
    case Ask(ticket) => MayAsk(s, ticket)
    case Leave(ticket) => MayAsk(s, ticket)
    case CallSession(ticket) => ticket < |s.tasks| && s.tasks[ticket].begun
    case Cancel(ticket) => ticket < |s.tasks| && s.tasks[ticket].begun && s.tasks[ticket].kind.Program?
    case WorkReturns(ticket) =>
      && ticket < |s.lane| == |s.tasks| && s.lane[ticket] == Running
      && s.tasks[ticket].kind.Program? && s.tasks[ticket].session.drain.None?
    case BeginCall(ticket, i, _) =>
      && ticket < |s.tasks| && i < |s.tasks[ticket].session.lane|
      && s.tasks[ticket].session.lane[i] == Waiting && TailSettled(s.tasks[ticket].session.lane, i)
    case SleepEnds(ticket, i) =>
      && ticket < |s.tasks| && i < |s.tasks[ticket].session.lane|
      && s.tasks[ticket].session.lane[i] == Running && Sent(ticket, Call(i)) !in s.inFlight
    case Reply(k) => k < |s.inFlight|
  }

  function Apply(s: State, e: Event): State
    requires Enabled(s, e)
  {
    match e
    case Enter(kind) => AfterEnter(s, kind)
    case Begin(ticket, enabled) => AfterBegin(s, ticket, enabled)
    case Ask(ticket) => AfterAsk(s, ticket)
    case Leave(ticket) => AfterLeave(s, ticket)
    case CallSession(ticket) => AfterCall(s, ticket)
    case Cancel(ticket) => AfterCancel(s, ticket)
    case WorkReturns(ticket) => AfterWork(s, ticket)
    case BeginCall(ticket, i, work) => AfterBeginCall(s, ticket, i, work)
    case SleepEnds(ticket, i) => AfterSleep(s, ticket, i)
    case Reply(k) => AfterReply(s, k)
  }

  // ---------------------------------------------------------------- the mutable state

  /** The lanes, the `accepting` and abort flags of each session, and what the helper has not answered. */
  class Lanes {
    var lane: Lane
    var tasks: seq<Task>
    var inFlight: seq<Sent>
    ghost var log: seq<Sent>
    ghost var cancelled: map<nat, nat>

    ghost function Snapshot(): State
      reads this
    {
      State(lane, tasks, inFlight, log, cancelled)
    }

    constructor ()
      ensures Snapshot() == INITIAL
    {
      lane, tasks, inFlight, log, cancelled := [], [], [], [], map[];
    }

    method SendRequest(sent: Sent)
      modifies this
      ensures Snapshot() == Send(old(Snapshot()), sent)
    {
      inFlight, log := inFlight + [sent], log + [sent];
    }

    method SetSession(ticket: nat, session: Session)
      requires ticket < |tasks|
      modifies this`tasks
      ensures Snapshot() == WithSession(old(Snapshot()), ticket, session)
    {
      tasks := tasks[ticket := tasks[ticket].(session := session)];
    }

    /** `run` up to its first await. */
    method EnterLane(kind: Kind)
      modifies this
      ensures Snapshot() == AfterEnter(old(Snapshot()), kind)
    {
      lane, tasks := lane + [Waiting], tasks + [Task(kind, false, CLOSED, 0)];
    }

    method BeginTask(ticket: nat, enabled: bool)
      requires Enabled(Snapshot(), Begin(ticket, enabled))
      modifies this
      ensures Snapshot() == AfterBegin(old(Snapshot()), ticket, enabled)
    {
      if !enabled {
        lane := lane[ticket := Released];
        return;
      }
      lane := lane[ticket := Running];
      if tasks[ticket].kind.Program? {
        tasks := tasks[ticket := Task(Program, true, Session(true, false, [], None), tasks[ticket].asked)];
      } else {
        tasks := tasks[ticket := Task(Plain, true, CLOSED, tasks[ticket].asked)];
      }
    }

    method AskHelper(ticket: nat)
      requires Enabled(Snapshot(), Ask(ticket))
      modifies this
      ensures Snapshot() == AfterAsk(old(Snapshot()), ticket)
    {
      var n := tasks[ticket].asked;
      tasks := tasks[ticket := tasks[ticket].(asked := n + 1)];
      SendRequest(Sent(ticket, Step(n)));
    }

    /** `release` in the `finally` block. */
    method LeaveLane(ticket: nat)
      requires ticket < |lane|
      modifies this`lane
      ensures Snapshot() == AfterLeave(old(Snapshot()), ticket)
    {
      lane := lane[ticket := Released];
    }

    method RunSession(ticket: nat)
      requires Enabled(Snapshot(), CallSession(ticket))
      modifies this
      ensures Snapshot() == AfterCall(old(Snapshot()), ticket)
    {
      var session := tasks[ticket].session;
      if session.accepting {
        SetSession(ticket, session.(lane := session.lane + [Waiting]));
      }
    }

    method CancelSession(ticket: nat)
      requires Enabled(Snapshot(), Cancel(ticket))
      modifies this
      ensures Snapshot() == AfterCancel(old(Snapshot()), ticket)
    {
      SetSession(ticket, tasks[ticket].session.(accepting := false, aborted := true));
      cancelled := if ticket in cancelled then cancelled else cancelled[ticket := |log|];
    }

    /** The `finally` block up to the drain. */
    method FinishWork(ticket: nat)
      requires Enabled(Snapshot(), WorkReturns(ticket))
      modifies this
      ensures Snapshot() == AfterWork(old(Snapshot()), ticket)
    {
      var session := tasks[ticket].session;
      SetSession(ticket, session.(accepting := false, lane := session.lane + [Waiting], drain := Some(|session.lane|)));
    }

    method StartCall(ticket: nat, i: nat, work: Work)
      requires Enabled(Snapshot(), BeginCall(ticket, i, work))
      modifies this
      ensures Snapshot() == AfterBeginCall(old(Snapshot()), ticket, i, work)
    {
      var session := tasks[ticket].session;
      if session.drain == Some(i) {
        SetSession(ticket, session.(lane := session.lane[i := Released], aborted := true));
        SendRequest(Sent(ticket, Release));
      } else if session.aborted || work.Rejects? {
        SetSession(ticket, session.(lane := session.lane[i := Released]));
      } else {
        SetSession(ticket, session.(lane := session.lane[i := Running]));
        if work.Sends? {
          SendRequest(Sent(ticket, Call(i)));
        }
      }
    }

    method EndCall(ticket: nat, i: nat)
      requires ticket < |tasks| && i < |tasks[ticket].session.lane|
      modifies this
      ensures Snapshot() == AfterSleep(old(Snapshot()), ticket, i)
    {
      var session := tasks[ticket].session;
      SetSession(ticket, session.(lane := session.lane[i := Released]));
    }

    method Answer(k: nat)
      requires k < |inFlight|
      modifies this
      ensures Snapshot() == AfterReply(old(Snapshot()), k)
    {
      var Sent(ticket, part) := inFlight[k];
      inFlight := inFlight[..k] + inFlight[k + 1..];
      if part.Call? {
        if ticket < |tasks| && part.i < |tasks[ticket].session.lane| {
          EndCall(ticket, part.i);
        }
      } else if part.Release? && ticket < |lane| {
        LeaveLane(ticket);
      }
    }
  }

  // ---------------------------------------------------------------- what every step keeps

  /** Entries start in the order they came, and only when all before them are done. */
  predicate Fifo(lane: Lane) {
    forall i, j :: 0 <= i < j < |lane| && lane[j] != Waiting ==> lane[i] == Released
  }

  predicate Drained(session: Session) {
    session.drain.Some? && session.drain.value < |session.lane| && session.lane[session.drain.value] == Released
  }

  predicate SessionSound(session: Session) {
    && Fifo(session.lane)
    && (session.drain.Some? ==>
          session.drain.value + 1 == |session.lane| && session.lane[session.drain.value] != Running
          && !session.accepting)
    && (Drained(session) ==> session.aborted)
    && (session.aborted ==> !session.accepting)
  }

  predicate AllReleased(lane: Lane) {
    TailSettled(lane, |lane|)
  }

  /** A session is open only while its program holds the lane, and is empty when the lane goes on. */
  predicate TaskSound(task: Task, phase: Phase) {
    && SessionSound(task.session)
    && (phase == Waiting ==> !task.begun)
    && (phase == Running ==> task.begun)
    && (!task.begun || task.kind.Plain? ==> task.session == CLOSED)
    && (phase == Released && task.begun && task.kind.Program? ==> Drained(task.session))
  }

  predicate TasksSound(lane: Lane, tasks: seq<Task>) {
    |lane| == |tasks| && forall t :: 0 <= t < |tasks| ==> TaskSound(tasks[t], lane[t])
  }

  /** What is in flight belongs to something that runs. */
  predicate Live(sent: Sent, lane: Lane, tasks: seq<Task>) {
    && sent.ticket < |lane| == |tasks| && lane[sent.ticket] == Running
    && var task := tasks[sent.ticket];
       match sent.part
       case Step(n) => task.kind.Plain? && n < task.asked
       case Call(i) => task.kind.Program? && i < |task.session.lane| && task.session.lane[i] == Running
       case Release => task.kind.Program? && Drained(task.session)
  }

  predicate FlightSound(s: State) {
    |s.inFlight| <= 1 && (s.inFlight != [] ==> Live(s.inFlight[0], s.lane, s.tasks))
  }

  /** What has been sent was sent by something that has begun. */
  predicate Past(sent: Sent, lane: Lane, tasks: seq<Task>) {
    && sent.ticket < |lane| == |tasks| && lane[sent.ticket] != Waiting && tasks[sent.ticket].begun
    && var task := tasks[sent.ticket];
       match sent.part
       case Step(n) => task.kind.Plain? && n < task.asked
       case Call(i) => task.kind.Program? && i < |task.session.lane| && task.session.lane[i] != Waiting
       case Release => task.kind.Program? && Drained(task.session)
  }

  /** Tasks in the order they came; within a program its calls in call order, then the release of inputs. */
  predicate Precedes(a: Sent, b: Sent) {
    || a.ticket < b.ticket
    || (a.ticket == b.ticket && a.part.Step? && b.part.Step? && a.part.n < b.part.n)
    || (a.ticket == b.ticket && a.part.Call? && (b.part.Release? || (b.part.Call? && a.part.i < b.part.i)))
  }

  predicate LogSound(log: seq<Sent>, lane: Lane, tasks: seq<Task>) {
    && (forall k :: 0 <= k < |log| ==> Past(log[k], lane, tasks))
    && (forall j, k :: 0 <= j < k < |log| ==> Precedes(log[j], log[k]))
  }

  /** After a session was cancelled it sends nothing but the release of inputs. */
  predicate Quiet(log: seq<Sent>, ticket: nat, from: nat) {
    forall k :: from <= k < |log| && log[k].ticket == ticket ==> log[k].part.Release?
  }

  predicate CancelSound(s: State) {
    forall ticket :: ticket in s.cancelled ==>
      && ticket < |s.tasks| && s.tasks[ticket].session.aborted
      && s.cancelled[ticket] <= |s.log| && Quiet(s.log, ticket, s.cancelled[ticket])
  }

  /** The program has sent, or is about to send, its last request. */
  predicate Ending(task: Task) {
    task.kind.Program? && Drained(task.session)
  }

  predicate EndSound(s: State)
    requires |s.lane| == |s.tasks|
  {
    forall t :: 0 <= t < |s.tasks| && Ending(s.tasks[t]) ==>
      && Sent(t, Release) in s.log
      && (s.lane[t] == Running ==> Sent(t, Release) in s.inFlight)
  }

  predicate Sound(s: State) {
    && Fifo(s.lane) && TasksSound(s.lane, s.tasks) && FlightSound(s) && LogSound(s.log, s.lane, s.tasks)
    && CancelSound(s) && EndSound(s)
  }

  // ---------------------------------------------------------------- lanes

  /** Starting the entry whose turn it is, and releasing the one that runs, keep the order. */
  lemma TurnKeepsFifo(lane: Lane, i: nat, phase: Phase)
    requires Fifo(lane) && i < |lane|
    requires (lane[i] == Waiting && TailSettled(lane, i)) || (lane[i] == Running && phase == Released)
    ensures Fifo(lane[i := phase])
  {
  }

  /** At most one entry of a lane runs. */
  lemma OneRuns(lane: Lane, i: nat, j: nat)
    requires Fifo(lane) && i < |lane| && j < |lane| && lane[i] == Running && lane[j] == Running
    ensures i == j
  {
  }

  lemma OthersRest(lane: Lane, i: nat, j: nat)
    requires Fifo(lane) && i < |lane| && j < |lane| && lane[i] == Running && i != j
    ensures lane[j] != Running
  {
  }

  /** While the next entry may start, none runs. */
  lemma NoneRuns(lane: Lane, i: nat, j: nat)
    requires Fifo(lane) && i < |lane| && j < |lane| && lane[i] == Waiting && TailSettled(lane, i)
    ensures lane[j] != Running && (j < i ==> lane[j] == Released) && (j > i ==> lane[j] == Waiting)
  {
  }

  /** An entry can only be waiting in the session of the program that holds the lane. */
  lemma CallerRuns(s: State, ticket: nat, i: nat)
    requires TasksSound(s.lane, s.tasks) && ticket < |s.tasks|
    requires i < |s.tasks[ticket].session.lane| && s.tasks[ticket].session.lane[i] != Released
    ensures s.lane[ticket] == Running && s.tasks[ticket].begun && s.tasks[ticket].kind.Program?
  {
    assert TaskSound(s.tasks[ticket], s.lane[ticket]);
  }

  /** While a call may start, nothing is in flight. */
  lemma CallFindsQuiet(s: State, ticket: nat, i: nat)
    requires Fifo(s.lane) && TasksSound(s.lane, s.tasks) && FlightSound(s)
    requires Enabled(s, BeginCall(ticket, i, Sends))
    ensures s.inFlight == []
  {
    if s.inFlight != [] {
      var sent := s.inFlight[0];
      CallerRuns(s, ticket, i);
      OneRuns(s.lane, ticket, sent.ticket);
      var session := s.tasks[ticket].session;
      assert TaskSound(s.tasks[ticket], s.lane[ticket]);
      if sent.part.Call? {
        NoneRuns(session.lane, i, sent.part.i);
      }
    }
  }

  /** While a task may start, nothing is in flight. */
  lemma TaskFindsQuiet(s: State, ticket: nat)
    requires Fifo(s.lane) && FlightSound(s) && Enabled(s, Begin(ticket, true))
    ensures s.inFlight == []
  {
    if s.inFlight != [] {
      NoneRuns(s.lane, ticket, s.inFlight[0].ticket);
    }
  }

  // ---------------------------------------------------------------- one step

  /** Nothing that has begun is undone. */
  predicate Advances(before: Task, after: Task) {
    && before.kind == after.kind && (before.begun ==> after.begun) && before.asked <= after.asked
    && |before.session.lane| <= |after.session.lane|
    && (forall i :: 0 <= i < |before.session.lane| && before.session.lane[i] != Waiting ==>
        after.session.lane[i] != Waiting)
    && (Drained(before.session) ==> Drained(after.session))
  }

  lemma PastStays(log: seq<Sent>, lane: Lane, tasks: seq<Task>, lane': Lane, tasks': seq<Task>)
    requires LogSound(log, lane, tasks)
    requires |lane| == |tasks| <= |tasks'| == |lane'|
    requires forall t :: 0 <= t < |lane| && lane[t] != Waiting ==> lane'[t] != Waiting
    requires forall t :: 0 <= t < |tasks| ==> Advances(tasks[t], tasks'[t])
    ensures LogSound(log, lane', tasks')
  {
    forall k | 0 <= k < |log|
      ensures Past(log[k], lane', tasks')
    {
      assert Past(log[k], lane, tasks);
      assert Advances(tasks[log[k].ticket], tasks'[log[k].ticket]);
    }
  }

  lemma LogGrows(log: seq<Sent>, sent: Sent, lane: Lane, tasks: seq<Task>)
    requires LogSound(log, lane, tasks) && Past(sent, lane, tasks)
    requires forall k :: 0 <= k < |log| ==> Precedes(log[k], sent)
    ensures LogSound(log + [sent], lane, tasks)
  {
  }

  lemma QuietStays(s: State, sent: Sent, ticket: nat)
    requires ticket in s.cancelled && s.cancelled[ticket] <= |s.log| && Quiet(s.log, ticket, s.cancelled[ticket])
    requires sent.ticket == ticket ==> sent.part.Release?
    ensures Quiet(s.log + [sent], ticket, s.cancelled[ticket])
  {
  }

  /** The fields of a session that calls, cancelling and the program's return change. */
  predicate Mild(s: State, ticket: nat, session: Session)
    requires ticket < |s.lane| == |s.tasks|
  {
    var before := s.tasks[ticket].session;
    && TaskSound(s.tasks[ticket].(session := session), s.lane[ticket])
    && Advances(s.tasks[ticket], s.tasks[ticket].(session := session))
    && (Drained(session) ==> Drained(before))
    && (before.aborted ==> session.aborted)
    && (forall i :: 0 <= i < |before.lane| && before.lane[i] == Running && Sent(ticket, Call(i)) in s.inFlight ==>
          session.lane[i] == Running)
    && (session.drain == before.drain || session.drain == Some(|before.lane|))
  }

  lemma SessionTasks(s: State, ticket: nat, session: Session)
    requires ticket < |s.lane| == |s.tasks| && TasksSound(s.lane, s.tasks) && LogSound(s.log, s.lane, s.tasks)
    requires TaskSound(s.tasks[ticket].(session := session), s.lane[ticket])
    requires Advances(s.tasks[ticket], s.tasks[ticket].(session := session))
    ensures var after := WithSession(s, ticket, session);
            TasksSound(after.lane, after.tasks) && LogSound(after.log, after.lane, after.tasks)
  {
    var after := WithSession(s, ticket, session);
    forall t | 0 <= t < |s.tasks|
      ensures TaskSound(after.tasks[t], after.lane[t]) && Advances(s.tasks[t], after.tasks[t])
    {
      assert TaskSound(s.tasks[t], s.lane[t]);
    }
    PastStays(s.log, s.lane, s.tasks, after.lane, after.tasks);
  }

  lemma SessionEnds(s: State, ticket: nat, session: Session)
    requires ticket < |s.lane| == |s.tasks| && EndSound(s) && (Drained(session) ==> Drained(s.tasks[ticket].session))
    ensures EndSound(WithSession(s, ticket, session))
  {
    var after := WithSession(s, ticket, session);
    forall t | 0 <= t < |after.tasks| && Ending(after.tasks[t])
      ensures Sent(t, Release) in s.log && (s.lane[t] == Running ==> Sent(t, Release) in s.inFlight)
    {
      assert Ending(s.tasks[t]);
    }
  }

  lemma SessionCancels(s: State, ticket: nat, session: Session)
    requires ticket < |s.tasks| && CancelSound(s) && (s.tasks[ticket].session.aborted ==> session.aborted)
    ensures CancelSound(WithSession(s, ticket, session))
  {
  }

  lemma SessionFlies(s: State, ticket: nat, session: Session)
    requires ticket < |s.lane| == |s.tasks| && FlightSound(s) && Mild(s, ticket, session)
    ensures FlightSound(WithSession(s, ticket, session))
  {
    if s.inFlight != [] {
      var sent := s.inFlight[0];
      assert sent in s.inFlight;
      assert Live(sent, s.lane, s.tasks);
      if sent.ticket == ticket && sent.part.Call? {
        assert sent == Sent(ticket, Call(sent.part.i));
      }
    }
  }

  lemma SessionStep(s: State, ticket: nat, session: Session) returns (after: State)
    requires Sound(s) && ticket < |s.lane| == |s.tasks| && Mild(s, ticket, session)
    ensures after == WithSession(s, ticket, session) && Sound(after)
  {
    after := WithSession(s, ticket, session);
    SessionTasks(s, ticket, session);
    SessionEnds(s, ticket, session);
    SessionCancels(s, ticket, session);
    SessionFlies(s, ticket, session);
  }

  lemma CallStep(s: State, ticket: nat) returns (after: State)
    requires Sound(s) && Enabled(s, CallSession(ticket))
    ensures after == AfterCall(s, ticket) && Sound(after)
  {
    after := s;
    var session := s.tasks[ticket].session;
    assert TaskSound(s.tasks[ticket], s.lane[ticket]);
    if session.accepting {
      after := SessionStep(s, ticket, session.(lane := session.lane + [Waiting]));
    }
  }

  lemma MarkStep(s: State, ticket: nat) returns (after: State)
    requires CancelSound(s) && ticket < |s.tasks| && s.tasks[ticket].session.aborted
    ensures after == s.(cancelled := if ticket in s.cancelled then s.cancelled else s.cancelled[ticket := |s.log|])
    ensures CancelSound(after)
  {
    after := s.(cancelled := if ticket in s.cancelled then s.cancelled else s.cancelled[ticket := |s.log|]);
    assert Quiet(s.log, ticket, |s.log|);
  }

  lemma CancelStep(s: State, ticket: nat) returns (after: State)
    requires Sound(s) && Enabled(s, Cancel(ticket))
    ensures after == AfterCancel(s, ticket) && Sound(after)
  {
    var session := s.tasks[ticket].session;
    assert TaskSound(s.tasks[ticket], s.lane[ticket]);
    var closed := SessionStep(s, ticket, session.(accepting := false, aborted := true));
    after := MarkStep(closed, ticket);
  }

  lemma WorkStep(s: State, ticket: nat) returns (after: State)
    requires Sound(s) && Enabled(s, WorkReturns(ticket))
    ensures after == AfterWork(s, ticket) && Sound(after)
  {
    var session := s.tasks[ticket].session;
    assert TaskSound(s.tasks[ticket], s.lane[ticket]);
    after := SessionStep(s, ticket,
      session.(accepting := false, lane := session.lane + [Waiting], drain := Some(|session.lane|)));
  }

  lemma SleepStep(s: State, ticket: nat, i: nat) returns (after: State)
    requires Sound(s) && Enabled(s, SleepEnds(ticket, i))
    ensures after == AfterSleep(s, ticket, i) && Sound(after)
  {
    var session := s.tasks[ticket].session;
    assert TaskSound(s.tasks[ticket], s.lane[ticket]);
    TurnKeepsFifo(session.lane, i, Released);
    after := SessionStep(s, ticket, session.(lane := session.lane[i := Released]));
  }

  /** Sending when nothing is in flight, after everything sent before. */
  lemma SendStep(s: State, sent: Sent) returns (after: State)
    requires Fifo(s.lane) && TasksSound(s.lane, s.tasks) && LogSound(s.log, s.lane, s.tasks) && CancelSound(s)
    requires s.inFlight == [] && Live(sent, s.lane, s.tasks) && Past(sent, s.lane, s.tasks)
    requires forall k :: 0 <= k < |s.log| ==> Precedes(s.log[k], sent)
    requires sent.ticket in s.cancelled ==> sent.part.Release?
    ensures after == Send(s, sent)
    ensures Fifo(after.lane) && TasksSound(after.lane, after.tasks) && FlightSound(after)
    ensures LogSound(after.log, after.lane, after.tasks) && CancelSound(after)
  {
    after := Send(s, sent);
    LogGrows(s.log, sent, s.lane, s.tasks);
    forall ticket | ticket in s.cancelled
      ensures Quiet(after.log, ticket, s.cancelled[ticket])
    {
      QuietStays(s, sent, ticket);
    }
  }

  /** Everything sent so far came from earlier tasks, or from earlier calls of this program. */
  lemma CallComesLast(s: State, ticket: nat, i: nat, part: Part)
    requires Fifo(s.lane) && TasksSound(s.lane, s.tasks) && LogSound(s.log, s.lane, s.tasks)
    requires Enabled(s, BeginCall(ticket, i, Sends)) && (part == Call(i) || part.Release?)
    ensures forall k :: 0 <= k < |s.log| ==> Precedes(s.log[k], Sent(ticket, part))
  {
    CallerRuns(s, ticket, i);
    var session := s.tasks[ticket].session;
    forall k | 0 <= k < |s.log|
      ensures Precedes(s.log[k], Sent(ticket, part))
    {
      var sent := s.log[k];
      assert Past(sent, s.lane, s.tasks);
      assert sent.ticket <= ticket;
      if sent.ticket == ticket && sent.part.Call? {
        NoneRuns(session.lane, i, sent.part.i);
      } else if sent.ticket == ticket {
        assert TaskSound(s.tasks[ticket], s.lane[ticket]);
      }
    }
  }

  lemma EndsKept(s: State, after: State)
    requires |s.lane| == |s.tasks| && |after.lane| == |after.tasks| == |s.tasks| && EndSound(s)
    requires s.log <= after.log && s.inFlight <= after.inFlight
    requires forall t :: 0 <= t < |s.tasks| && Ending(after.tasks[t]) ==>
               || (Ending(s.tasks[t]) && (after.lane[t] == Running ==> s.lane[t] == Running))
               || (Sent(t, Release) in after.log && Sent(t, Release) in after.inFlight)
    ensures EndSound(after)
  {
    forall t | 0 <= t < |after.tasks| && Ending(after.tasks[t])
      ensures Sent(t, Release) in after.log
      ensures after.lane[t] == Running ==> Sent(t, Release) in after.inFlight
    {
      assert Ending(s.tasks[t]) ==> Sent(t, Release) in s.log;
    }
  }

  lemma BeginCallStep(s: State, ticket: nat, i: nat, work: Work) returns (after: State)
    requires Sound(s) && Enabled(s, BeginCall(ticket, i, work))
    ensures after == AfterBeginCall(s, ticket, i, work) && Sound(after)
  {
    var session := s.tasks[ticket].session;
    assert TaskSound(s.tasks[ticket], s.lane[ticket]);
    CallerRuns(s, ticket, i);
    if session.drain == Some(i) {
      after := DrainStep(s, ticket, i);
    } else if session.aborted || work.Rejects? {
      TurnKeepsFifo(session.lane, i, Released);
      after := SessionStep(s, ticket, session.(lane := session.lane[i := Released]));
    } else {
      TurnKeepsFifo(session.lane, i, Running);
      CallFindsQuiet(s, ticket, i);
      CallComesLast(s, ticket, i, Call(i));
      var running := SessionStep(s, ticket, session.(lane := session.lane[i := Running]));
      after := running;
      if work.Sends? {
        assert ticket !in s.cancelled;
        after := SendStep(running, Sent(ticket, Call(i)));
        EndsKept(running, after);
      }
    }
  }

  lemma DrainStep(s: State, ticket: nat, i: nat) returns (after: State)
    requires Sound(s) && Enabled(s, BeginCall(ticket, i, Sends)) && s.tasks[ticket].session.drain == Some(i)
    ensures after == AfterBeginCall(s, ticket, i, Sends) && Sound(after)
  {
    var session := s.tasks[ticket].session;
    var past := session.(lane := session.lane[i := Released], aborted := true);
    assert TaskSound(s.tasks[ticket], s.lane[ticket]);
    CallerRuns(s, ticket, i);
    CallFindsQuiet(s, ticket, i);
    CallComesLast(s, ticket, i, Release);
    TurnKeepsFifo(session.lane, i, Released);
    SessionTasks(s, ticket, past);
    SessionCancels(s, ticket, past);
    after := SendStep(WithSession(s, ticket, past), Sent(ticket, Release));
    EndsKept(s, after);
  }

  lemma EnterStep(s: State, kind: Kind) returns (after: State)
    requires Sound(s)
    ensures after == AfterEnter(s, kind) && Sound(after)
  {
    after := AfterEnter(s, kind);
    forall t | 0 <= t < |after.tasks|
      ensures TaskSound(after.tasks[t], after.lane[t])
    {
      if t < |s.tasks| {
        assert TaskSound(s.tasks[t], s.lane[t]);
      }
    }
    PastStays(s.log, s.lane, s.tasks, after.lane, after.tasks);
    assert FlightSound(after) by {
      assert s.inFlight != [] ==> Live(s.inFlight[0], s.lane, s.tasks);
    }
    forall t | 0 <= t < |after.tasks| && Ending(after.tasks[t])
      ensures Sent(t, Release) in s.log && (after.lane[t] == Running ==> Sent(t, Release) in s.inFlight)
    {
      assert Ending(s.tasks[t]);
    }
  }

  /** The lane goes on to its next entry. */
  lemma LaneTasks(s: State, ticket: nat, phase: Phase, task: Task)
    requires ticket < |s.lane| == |s.tasks| && TasksSound(s.lane, s.tasks) && LogSound(s.log, s.lane, s.tasks)
    requires TaskSound(task, phase) && Advances(s.tasks[ticket], task) && phase != Waiting
    ensures TasksSound(s.lane[ticket := phase], s.tasks[ticket := task])
    ensures LogSound(s.log, s.lane[ticket := phase], s.tasks[ticket := task])
  {
    var (lane, tasks) := (s.lane[ticket := phase], s.tasks[ticket := task]);
    forall t | 0 <= t < |tasks|
      ensures TaskSound(tasks[t], lane[t]) && Advances(s.tasks[t], tasks[t])
    {
      assert TaskSound(s.tasks[t], s.lane[t]);
    }
    PastStays(s.log, s.lane, s.tasks, lane, tasks);
  }

  /** Everything sent so far came from earlier tasks, or was asked earlier by this one. */
  lemma StepComesLast(s: State, ticket: nat)
    requires Fifo(s.lane) && LogSound(s.log, s.lane, s.tasks) && Enabled(s, Ask(ticket))
    ensures forall k :: 0 <= k < |s.log| ==> Precedes(s.log[k], Sent(ticket, Step(s.tasks[ticket].asked)))
  {
    forall k | 0 <= k < |s.log|
      ensures Precedes(s.log[k], Sent(ticket, Step(s.tasks[ticket].asked)))
    {
      assert Past(s.log[k], s.lane, s.tasks);
      assert s.log[k].ticket <= ticket;
    }
  }

  /** A plain task that may go on finds nothing in flight. */
  lemma AskerFindsQuiet(s: State, ticket: nat)
    requires Fifo(s.lane) && FlightSound(s) && MayAsk(s, ticket)
    ensures s.inFlight == []
  {
    if s.inFlight != [] {
      OneRuns(s.lane, ticket, s.inFlight[0].ticket);
    }
  }

  lemma CancelledBegan(s: State, ticket: nat)
    requires CancelSound(s) && TasksSound(s.lane, s.tasks) && ticket in s.cancelled
    ensures ticket < |s.tasks| && s.tasks[ticket].begun && s.tasks[ticket].kind.Program?
  {
    assert TaskSound(s.tasks[ticket], s.lane[ticket]);
  }

  lemma RefuseStep(s: State, ticket: nat) returns (after: State)
    requires Sound(s) && Enabled(s, Begin(ticket, false))
    ensures after == AfterBegin(s, ticket, false) && Sound(after)
  {
    var task := s.tasks[ticket];
    assert TaskSound(task, s.lane[ticket]);
    TaskFindsQuiet(s, ticket);
    after := s.(lane := s.lane[ticket := Released]);
    TurnKeepsFifo(s.lane, ticket, Released);
    LaneTasks(s, ticket, Released, task);
    assert after.tasks == s.tasks[ticket := task];
    EndsKept(s, after);
  }

  lemma StartStep(s: State, ticket: nat) returns (after: State)
    requires Sound(s) && Enabled(s, Begin(ticket, true))
    ensures after == AfterBegin(s, ticket, true) && Sound(after)
  {
    var task := s.tasks[ticket];
    assert TaskSound(task, s.lane[ticket]);
    assert ticket !in s.cancelled by {
      if ticket in s.cancelled {
        CancelledBegan(s, ticket);
      }
    }
    TaskFindsQuiet(s, ticket);
    TurnKeepsFifo(s.lane, ticket, Running);
    var open := if task.kind.Program? then Session(true, false, [], None) else CLOSED;
    LaneTasks(s, ticket, Running, Task(task.kind, true, open, task.asked));
    after := s.(lane := s.lane[ticket := Running], tasks := s.tasks[ticket := Task(task.kind, true, open, task.asked)]);
    EndsKept(s, after);
  }

  lemma BeginStep(s: State, ticket: nat, enabled: bool) returns (after: State)
    requires Sound(s) && Enabled(s, Begin(ticket, enabled))
    ensures after == AfterBegin(s, ticket, enabled) && Sound(after)
  {
    if enabled {
      after := StartStep(s, ticket);
    } else {
      after := RefuseStep(s, ticket);
    }
  }

  lemma AskStep(s: State, ticket: nat) returns (after: State)
    requires Sound(s) && Enabled(s, Ask(ticket))
    ensures after == AfterAsk(s, ticket) && Sound(after)
  {
    var task := s.tasks[ticket].(asked := s.tasks[ticket].asked + 1);
    assert TaskSound(s.tasks[ticket], s.lane[ticket]);
    assert ticket !in s.cancelled by {
      if ticket in s.cancelled {
        CancelledBegan(s, ticket);
      }
    }
    AskerFindsQuiet(s, ticket);
    StepComesLast(s, ticket);
    LaneTasks(s, ticket, Running, task);
    assert s.lane[ticket := Running] == s.lane;
    after := SendStep(s.(tasks := s.tasks[ticket := task]), Sent(ticket, Step(s.tasks[ticket].asked)));
    EndsKept(s, after);
  }

  lemma LeaveStep(s: State, ticket: nat) returns (after: State)
    requires Sound(s) && Enabled(s, Leave(ticket))
    ensures after == AfterLeave(s, ticket) && Sound(after)
  {
    AskerFindsQuiet(s, ticket);
    assert TaskSound(s.tasks[ticket], s.lane[ticket]);
    after := s.(lane := s.lane[ticket := Released]);
    TurnKeepsFifo(s.lane, ticket, Released);
    LaneTasks(s, ticket, Released, s.tasks[ticket]);
    assert after.tasks == s.tasks[ticket := s.tasks[ticket]];
    EndsKept(s, after);
  }

  lemma ReplyStep(s: State, k: nat) returns (after: State)
    requires Sound(s) && k < |s.inFlight|
    ensures after == AfterReply(s, k) && Sound(after)
  {
    var sent := s.inFlight[0];
    assert k == 0 && s.inFlight[..k] + s.inFlight[k + 1..] == [];
    assert TaskSound(s.tasks[sent.ticket], s.lane[sent.ticket]);
    var answered := s.(inFlight := []);
    if sent.part.Release? {
      after := answered.(lane := s.lane[sent.ticket := Released]);
      TurnKeepsFifo(s.lane, sent.ticket, Released);
      LaneTasks(s, sent.ticket, Released, s.tasks[sent.ticket]);
      assert after.tasks == s.tasks[sent.ticket := s.tasks[sent.ticket]];
      EndsAnswered(s, after, sent.ticket);
    } else {
      after := answered;
      OthersOnlyRest(s, sent);
      if sent.part.Call? {
        after := SleepStep(answered, sent.ticket, sent.part.i);
      }
    }
  }

  /** While a call or a plain task's request is in flight no program is at its last request. */
  lemma OthersOnlyRest(s: State, sent: Sent)
    requires Sound(s) && s.inFlight == [sent] && !sent.part.Release?
    ensures EndSound(s.(inFlight := []))
  {
    assert Live(s.inFlight[0], s.lane, s.tasks);
    assert TaskSound(s.tasks[sent.ticket], s.lane[sent.ticket]);
    assert !Ending(s.tasks[sent.ticket]);
    forall t | 0 <= t < |s.tasks| && Ending(s.tasks[t])
      ensures Sent(t, Release) in s.log && s.lane[t] != Running
    {
      OthersRest(s.lane, sent.ticket, t);
    }
  }

  lemma EndsAnswered(s: State, after: State, ticket: nat)
    requires Sound(s) && ticket < |s.lane| && s.lane[ticket] == Running
    requires after == s.(inFlight := [], lane := s.lane[ticket := Released])
    ensures EndSound(after)
  {
    forall t | 0 <= t < |s.tasks| && Ending(s.tasks[t])
      ensures Sent(t, Release) in s.log && after.lane[t] != Running
    {
      if t != ticket {
        OthersRest(s.lane, ticket, t);
      }
    }
  }

  lemma StepIsSound(s: State, e: Event)
    requires Sound(s) && Enabled(s, e)
    ensures Sound(Apply(s, e))
  {
    match e
    case Enter(kind) => var _ := EnterStep(s, kind);
    case Begin(ticket, enabled) => var _ := BeginStep(s, ticket, enabled);
    case Ask(ticket) => var _ := AskStep(s, ticket);
    case Leave(ticket) => var _ := LeaveStep(s, ticket);
    case CallSession(ticket) => var _ := CallStep(s, ticket);
    case Cancel(ticket) => var _ := CancelStep(s, ticket);
    case WorkReturns(ticket) => var _ := WorkStep(s, ticket);
    case BeginCall(ticket, i, work) => var _ := BeginCallStep(s, ticket, i, work);
    case SleepEnds(ticket, i) => var _ := SleepStep(s, ticket, i);
    case Reply(k) => var _ := ReplyStep(s, k);
  }

  /** `s` is reached by these events, each possible when it happens. */
  predicate Run(s: State, events: seq<Event>, end: State)
    decreases |events|
  {
    if events == [] then s == end
    else Enabled(s, events[0]) && Run(Apply(s, events[0]), events[1..], end)
  }

  lemma {:induction false} RunIsSound(s: State, events: seq<Event>, end: State)
    requires Sound(s) && Run(s, events, end)
    ensures Sound(end)
    decreases |events|
  {
    if events != [] {
      StepIsSound(s, events[0]);
      RunIsSound(Apply(s, events[0]), events[1..], end);
    }
  }

  lemma InitialSound(s: State)
    requires s == INITIAL
    ensures Sound(s)
  {
  }

  // ---------------------------------------------------------------- every run

  /** In every run one request of the lane's tasks at most waits for its reply. */
  lemma OneRequestInFlight(start: State, events: seq<Event>, end: State)
    requires start == INITIAL && Run(start, events, end)
    ensures |end.inFlight| <= 1
  {
    InitialSound(start);
    RunIsSound(start, events, end);
  }

  /** In every run requests go out task by task, within a program call by call, the release of inputs last. */
  lemma RequestsInOrder(start: State, events: seq<Event>, end: State, i: nat, j: nat)
    requires start == INITIAL && Run(start, events, end) && i < j < |end.log|
    ensures Precedes(end.log[i], end.log[j])
  {
    InitialSound(start);
    RunIsSound(start, events, end);
  }

  /** In every run no other task's request falls between two of the same task. */
  lemma NothingBetween(start: State, events: seq<Event>, end: State, i: nat, j: nat, k: nat)
    requires start == INITIAL && Run(start, events, end) && i < j < k < |end.log|
    requires end.log[i].ticket == end.log[k].ticket
    ensures end.log[j].ticket == end.log[i].ticket
  {
    RequestsInOrder(start, events, end, i, j);
    RequestsInOrder(start, events, end, j, k);
  }

  /** In every run a session that was cancelled sends nothing any more but the release of inputs. */
  lemma SilentOnceCancelled(start: State, events: seq<Event>, end: State, ticket: nat, k: nat)
    requires start == INITIAL && Run(start, events, end)
    requires ticket in end.cancelled && end.cancelled[ticket] <= k < |end.log| && end.log[k].ticket == ticket
    ensures end.log[k].part == Release
  {
    InitialSound(start);
    RunIsSound(start, events, end);
  }

  /** In every run a program that has given the lane back ended with the release of inputs, after all its calls. */
  lemma ProgramsEndReleased(start: State, events: seq<Event>, end: State, ticket: nat) returns (k: nat)
    requires start == INITIAL && Run(start, events, end)
    requires ticket < |end.lane| == |end.tasks| && end.lane[ticket] == Released
    requires end.tasks[ticket].begun && end.tasks[ticket].kind.Program?
    ensures k < |end.log| && end.log[k] == Sent(ticket, Release)
    ensures forall j :: 0 <= j < |end.log| && end.log[j].ticket == ticket ==> j <= k
    ensures AllReleased(end.tasks[ticket].session.lane)
  {
    InitialSound(start);
    RunIsSound(start, events, end);
    assert TaskSound(end.tasks[ticket], end.lane[ticket]);
    assert Sent(ticket, Release) in end.log;
    k :| 0 <= k < |end.log| && end.log[k] == Sent(ticket, Release);
    NothingAfterRelease(end.log, end.lane, end.tasks, k);
  }

  lemma NothingAfterRelease(log: seq<Sent>, lane: Lane, tasks: seq<Task>, k: nat)
    requires LogSound(log, lane, tasks) && k < |log| && log[k].part.Release?
    ensures forall j :: 0 <= j < |log| && log[j].ticket == log[k].ticket ==> j <= k
  {
    forall j | k < j < |log|
      ensures log[j].ticket != log[k].ticket
    {
      assert Precedes(log[k], log[j]);
    }
  }

  // ---------------------------------------------------------------- progress

  /** A step that needs nobody's new request: work is expected to return only when its calls are done. */
  predicate Moves(s: State, e: Event) {
    && Enabled(s, e)
    && match e
       case Enter(_) => false
       case CallSession(_) => false
       case Cancel(_) => false
       case Ask(_) => false
       case WorkReturns(ticket) => AllReleased(s.tasks[ticket].session.lane)
       case _ => true
  }

  lemma FirstUnreleased(lane: Lane, n: nat) returns (i: nat)
    requires n <= |lane| && !TailSettled(lane, n)
    ensures i < n && lane[i] != Released && TailSettled(lane, i)
  {
    i := 0;
    while lane[i] == Released
      invariant i < n && TailSettled(lane, i)
      decreases n - i
    {
      i := i + 1;
    }
  }

  /** No reachable state is stuck: while some task has not released the lane, some step can be taken. */
  lemma NeverStuck(start: State, events: seq<Event>, s: State) returns (e: Event)
    requires start == INITIAL && Run(start, events, s) && !AllReleased(s.lane)
    ensures Moves(s, e)
  {
    InitialSound(start);
    RunIsSound(start, events, s);
    var t := FirstUnreleased(s.lane, |s.lane|);
    assert TaskSound(s.tasks[t], s.lane[t]);
    var session := s.tasks[t].session;
    assert Ending(s.tasks[t]) && s.lane[t] == Running ==> s.inFlight != [];
    if s.lane[t] == Waiting {
      e := Begin(t, true);
    } else if s.inFlight != [] {
      e := Reply(0);
    } else if s.tasks[t].kind.Plain? {
      e := Leave(t);
    } else if AllReleased(session.lane) {
      e := WorkReturns(t);
    } else {
      var i := FirstUnreleased(session.lane, |session.lane|);
      if session.lane[i] == Waiting {
        e := BeginCall(t, i, Sends);
      } else {
        e := SleepEnds(t, i);
      }
    }
  }

  function LaneLoad(lane: Lane): nat {
    if lane == [] then 0
    else LaneLoad(lane[..|lane| - 1]) + (match lane[|lane| - 1] case Waiting => 3 case Running => 1 case Released => 0)
  }

  /** An upper bound on the steps a task can still take. */
  function Load(task: Task, phase: Phase): nat {
    match phase
    case Waiting => 7
    case Running =>
      if task.kind.Plain? then 1
      else LaneLoad(task.session.lane) + (if task.session.drain.None? then 6 else 1)
    case Released => 0
  }

  function Total(lane: Lane, tasks: seq<Task>): nat
    requires |lane| == |tasks|
  {
    if lane == [] then 0
    else
      var n := |lane| - 1;
      Total(lane[..n], tasks[..n]) + Load(tasks[n], lane[n])
  }

  lemma {:induction false} LoadUpdate(lane: Lane, i: nat, phase: Phase)
    requires i < |lane|
    ensures LaneLoad(lane[i := phase]) + LaneLoad([lane[i]]) == LaneLoad(lane) + LaneLoad([phase])
  {
    var n := |lane| - 1;
    assert [lane[i]][..0] == [] && [phase][..0] == [];
    if i < n {
      LoadUpdate(lane[..n], i, phase);
      assert lane[i := phase][..n] == lane[..n][i := phase];
    } else {
      assert lane[i := phase][..n] == lane[..n];
    }
  }

  lemma LoadAppend(lane: Lane)
    ensures LaneLoad(lane + [Waiting]) == LaneLoad(lane) + 3
  {
    assert (lane + [Waiting])[..|lane|] == lane;
  }

  lemma {:induction false} TotalUpdate(lane: Lane, tasks: seq<Task>, t: nat, phase: Phase, task: Task)
    requires t < |lane| == |tasks|
    ensures Total(lane[t := phase], tasks[t := task]) + Load(tasks[t], lane[t])
            == Total(lane, tasks) + Load(task, phase)
  {
    var n := |lane| - 1;
    if t < n {
      TotalUpdate(lane[..n], tasks[..n], t, phase, task);
      assert lane[t := phase][..n] == lane[..n][t := phase] && tasks[t := task][..n] == tasks[..n][t := task];
    } else {
      assert lane[t := phase][..n] == lane[..n] && tasks[t := task][..n] == tasks[..n];
    }
  }

  predicate External(e: Event) {
    e.Enter? || e.CallSession? || e.Cancel? || e.Ask?
  }

  function TotalOf(s: State): nat
    requires |s.lane| == |s.tasks|
  {
    Total(s.lane, s.tasks) + |s.inFlight|
  }

  lemma TurnLoad(lane: Lane, i: nat, phase: Phase)
    requires i < |lane|
    ensures lane[i] == Waiting && phase == Running ==> LaneLoad(lane[i := phase]) + 2 == LaneLoad(lane)
    ensures lane[i] == Waiting && phase == Released ==> LaneLoad(lane[i := phase]) + 3 == LaneLoad(lane)
    ensures lane[i] == Running && phase == Released ==> LaneLoad(lane[i := phase]) + 1 == LaneLoad(lane)
  {
    LoadUpdate(lane, i, phase);
    assert [lane[i]][..0] == [] && [phase][..0] == [];
  }

  lemma CallDescends(s: State, ticket: nat, i: nat, work: Work)
    requires Sound(s) && Enabled(s, BeginCall(ticket, i, work))
    ensures |AfterBeginCall(s, ticket, i, work).lane| == |AfterBeginCall(s, ticket, i, work).tasks|
    ensures TotalOf(AfterBeginCall(s, ticket, i, work)) < TotalOf(s)
  {
    CallerRuns(s, ticket, i);
    var after := AfterBeginCall(s, ticket, i, work);
    var session := s.tasks[ticket].session;
    TurnLoad(session.lane, i, Released);
    TurnLoad(session.lane, i, Running);
    assert s.lane[ticket := Running] == s.lane;
    TotalUpdate(s.lane, s.tasks, ticket, Running, after.tasks[ticket]);
    assert after.tasks == s.tasks[ticket := after.tasks[ticket]];
  }

  lemma SleepDescends(s: State, ticket: nat, i: nat)
    requires TasksSound(s.lane, s.tasks) && ticket < |s.tasks| && i < |s.tasks[ticket].session.lane|
    requires s.tasks[ticket].session.lane[i] == Running
    ensures TotalOf(AfterSleep(s, ticket, i)) < TotalOf(s)
  {
    CallerRuns(s, ticket, i);
    var after := AfterSleep(s, ticket, i);
    TurnLoad(s.tasks[ticket].session.lane, i, Released);
    assert s.lane[ticket := Running] == s.lane;
    TotalUpdate(s.lane, s.tasks, ticket, Running, after.tasks[ticket]);
  }

  lemma WorkDescends(s: State, ticket: nat)
    requires Sound(s) && Enabled(s, WorkReturns(ticket))
    ensures TotalOf(AfterWork(s, ticket)) < TotalOf(s)
  {
    var after := AfterWork(s, ticket);
    LoadAppend(s.tasks[ticket].session.lane);
    assert s.lane[ticket := Running] == s.lane;
    TotalUpdate(s.lane, s.tasks, ticket, Running, after.tasks[ticket]);
  }

  lemma BeginDescends(s: State, ticket: nat, enabled: bool)
    requires Sound(s) && Enabled(s, Begin(ticket, enabled))
    ensures TotalOf(AfterBegin(s, ticket, enabled)) < TotalOf(s)
  {
    var after := AfterBegin(s, ticket, enabled);
    TotalUpdate(s.lane, s.tasks, ticket, after.lane[ticket], after.tasks[ticket]);
    assert after.tasks == s.tasks[ticket := after.tasks[ticket]];
  }

  lemma LeaveDescends(s: State, ticket: nat)
    requires |s.lane| == |s.tasks| && ticket < |s.lane| && s.lane[ticket] == Running
    ensures TotalOf(AfterLeave(s, ticket)) < TotalOf(s)
  {
    var task := s.tasks[ticket];
    TotalUpdate(s.lane, s.tasks, ticket, Released, task);
    assert s.tasks[ticket := task] == s.tasks;
  }

  lemma ReplyDescends(s: State, k: nat)
    requires Sound(s) && k < |s.inFlight|
    ensures |AfterReply(s, k).lane| == |AfterReply(s, k).tasks| && TotalOf(AfterReply(s, k)) < TotalOf(s)
  {
    var sent := s.inFlight[k];
    assert Live(sent, s.lane, s.tasks);
    var answered := s.(inFlight := s.inFlight[..k] + s.inFlight[k + 1..]);
    if sent.part.Call? {
      SleepDescends(answered, sent.ticket, sent.part.i);
    } else if sent.part.Release? {
      LeaveDescends(answered, sent.ticket);
    }
  }

  /** Every step of the lanes uses up some of the work that was asked for. */
  lemma StepDescends(s: State, e: Event)
    requires Sound(s) && Enabled(s, e) && !External(e)
    ensures Sound(Apply(s, e)) && TotalOf(Apply(s, e)) < TotalOf(s)
  {
    StepIsSound(s, e);
    match e
    case Begin(ticket, enabled) => BeginDescends(s, ticket, enabled);
    case Leave(ticket) => LeaveDescends(s, ticket);
    case WorkReturns(ticket) => WorkDescends(s, ticket);
    case BeginCall(ticket, i, work) => CallDescends(s, ticket, i, work);
    case SleepEnds(ticket, i) => SleepDescends(s, ticket, i);
    case Reply(k) => ReplyDescends(s, k);
  }

  /** Without new tasks and calls every run ends, within a number of steps known in advance. */
  lemma {:induction false} RunsEnd(s: State, events: seq<Event>, end: State)
    requires Sound(s) && Run(s, events, end) && forall i :: 0 <= i < |events| ==> !External(events[i])
    ensures |events| <= TotalOf(s)
    decreases |events|
  {
    if events != [] {
      StepDescends(s, events[0]);
      RunsEnd(Apply(s, events[0]), events[1..], end);
    }
  }
}
