/**
 * What the lanes send, told from the events of a run alone: every request a
 * plain task asks for, every call of a program whose turn comes, and the release.
 */
module ProgramRuns {
  import opened ProgramLane
  import opened Wrappers

  // ---------------------------------------------------------------- the story of a run

  /** The kinds of the tasks, in the order they entered the lane. */
  function Kinds(events: seq<Event>): seq<Kind> {
    if events == [] then []
    else
      var (init, e) := (events[..|events| - 1], events[|events| - 1]);
      Kinds(init) + if e.Enter? then [e.kind] else []
  }

  predicate IsProgram(events: seq<Event>, ticket: nat) {
    ticket < |Kinds(events)| && Kinds(events)[ticket].Program?
  }

  /** How often the task asked the helper for something. */
  function Asks(events: seq<Event>, ticket: nat): nat {
    if events == [] then 0
    else
      var (init, e) := (events[..|events| - 1], events[|events| - 1]);
      Asks(init, ticket) + if e == Ask(ticket) then 1 else 0
  }

  /** Neither was the session cancelled nor has the program's work returned. */
  predicate Open(events: seq<Event>, ticket: nat) {
    IsProgram(events, ticket) && Cancel(ticket) !in events && WorkReturns(ticket) !in events
  }

  /** The calls made on the session while it was open. */
  function Calls(events: seq<Event>, ticket: nat): nat {
    if events == [] then 0
    else
      var (init, e) := (events[..|events| - 1], events[|events| - 1]);
      Calls(init, ticket) + if e == CallSession(ticket) && Open(init, ticket) then 1 else 0
  }

  /** What the event `e` sends after `events`. */
  function Sends(events: seq<Event>, e: Event): seq<Sent> {
    match e
    case Ask(ticket) => [Sent(ticket, Step(Asks(events, ticket)))]
    case BeginCall(ticket, i, work) =>
      if WorkReturns(ticket) in events && i == Calls(events, ticket) then [Sent(ticket, Release)]
      else if work.Sends? && Cancel(ticket) !in events then [Sent(ticket, Call(i))]
      else []
    case _ => []
  }

  /** All that is sent. */
  function Story(events: seq<Event>): seq<Sent> {
    if events == [] then []
    else Story(events[..|events| - 1]) + Sends(events[..|events| - 1], events[|events| - 1])
  }

  function Replies(events: seq<Event>): nat {
    if events == [] then 0
    else Replies(events[..|events| - 1]) + if events[|events| - 1].Reply? then 1 else 0
  }

  // ---------------------------------------------------------------- states keep to the story

  /** The session of a program, as the events tell it. */
  predicate SessionTold(task: Task, events: seq<Event>, ticket: nat) {
    var session := task.session;
    && |session.lane| == Calls(events, ticket) + (if WorkReturns(ticket) in events then 1 else 0)
    && session.drain == (if WorkReturns(ticket) in events then Some(Calls(events, ticket)) else None)
    && (task.begun ==> (session.accepting <==> Open(events, ticket)))
    && (session.aborted <==> Cancel(ticket) in events || Drained(session))
  }

  predicate TaskTold(task: Task, events: seq<Event>, ticket: nat) {
    && ticket < |Kinds(events)| && task.kind == Kinds(events)[ticket]
    && task.asked == Asks(events, ticket) && SessionTold(task, events, ticket)
    && (!task.begun ==> Calls(events, ticket) == 0 && Cancel(ticket) !in events && WorkReturns(ticket) !in events)
  }

  predicate TasksTold(tasks: seq<Task>, events: seq<Event>) {
    |tasks| == |Kinds(events)| && forall t :: 0 <= t < |tasks| ==> TaskTold(tasks[t], events, t)
  }

  /** Nothing is told of tasks that have not entered. */
  predicate Untold(events: seq<Event>, ticket: nat) {
    && Asks(events, ticket) == 0 && Calls(events, ticket) == 0
    && Cancel(ticket) !in events && WorkReturns(ticket) !in events
  }

  ghost predicate NewUntold(events: seq<Event>) {
    forall t: nat :: t >= |Kinds(events)| ==> Untold(events, t)
  }

  ghost predicate Told(s: State, events: seq<Event>) {
    && s.log == Story(events) && TasksTold(s.tasks, events)
    && |s.log| == |s.inFlight| + Replies(events) && NewUntold(events)
  }

  // ---------------------------------------------------------------- one more event

  lemma Snoc(events: seq<Event>, e: Event)
    ensures var all := events + [e];
            && Kinds(all) == Kinds(events) + (if e.Enter? then [e.kind] else [])
            && Story(all) == Story(events) + Sends(events, e)
            && Replies(all) == Replies(events) + (if e.Reply? then 1 else 0)
  {
    assert (events + [e])[..|events|] == events;
  }

  lemma SnocTicket(events: seq<Event>, e: Event, ticket: nat)
    ensures var all := events + [e];
            && Asks(all, ticket) == Asks(events, ticket) + (if e == Ask(ticket) then 1 else 0)
            && Calls(all, ticket) ==
                 Calls(events, ticket) + (if e == CallSession(ticket) && Open(events, ticket) then 1 else 0)
            && (Cancel(ticket) in all <==> Cancel(ticket) in events || e == Cancel(ticket))
            && (WorkReturns(ticket) in all <==> WorkReturns(ticket) in events || e == WorkReturns(ticket))
            && (ticket < |Kinds(events)| ==>
                  && (IsProgram(all, ticket) <==> IsProgram(events, ticket))
                  && Kinds(all)[ticket] == Kinds(events)[ticket])
  {
    assert (events + [e])[..|events|] == events;
    Snoc(events, e);
  }

  /** The event says nothing of this task's requests, calls or end. */
  predicate Silent(e: Event, ticket: nat) {
    e != Ask(ticket) && e != CallSession(ticket) && e != Cancel(ticket) && e != WorkReturns(ticket)
  }

  /** Of all tasks it says something of this one only. */
  predicate Concerns(e: Event, ticket: nat) {
    e.Ask? || e.CallSession? || e.Cancel? || e.WorkReturns? ==> e.ticket == ticket
  }

  lemma TaskStays(task: Task, events: seq<Event>, e: Event, ticket: nat)
    requires TaskTold(task, events, ticket) && Silent(e, ticket)
    ensures TaskTold(task, events + [e], ticket)
  {
    Snoc(events, e);
    SnocTicket(events, e, ticket);
  }

  lemma UntoldStays(events: seq<Event>, e: Event)
    requires NewUntold(events)
    requires e.Ask? || e.CallSession? || e.Cancel? || e.WorkReturns? ==> e.ticket < |Kinds(events)|
    ensures NewUntold(events + [e])
  {
    Snoc(events, e);
    var all := events + [e];
    forall t: nat | t >= |Kinds(all)|
      ensures Untold(all, t)
    {
      assert Untold(events, t);
      SnocTicket(events, e, t);
    }
  }

  /** Only the task at `ticket` changes, to what the events now tell of it. */
  lemma OneTaskTold(tasks: seq<Task>, events: seq<Event>, e: Event, ticket: nat, task: Task)
    requires TasksTold(tasks, events) && !e.Enter? && ticket < |tasks|
    requires TaskTold(task, events + [e], ticket)
    requires Concerns(e, ticket)
    ensures TasksTold(tasks[ticket := task], events + [e])
  {
    var after := tasks[ticket := task];
    Snoc(events, e);
    forall t | 0 <= t < |after|
      ensures TaskTold(after[t], events + [e], t)
    {
      if t != ticket {
        TaskStays(tasks[t], events, e, t);
      }
    }
  }

  lemma NewTaskTold(events: seq<Event>, kind: Kind)
    requires Untold(events, |Kinds(events)|)
    ensures TaskTold(Task(kind, false, CLOSED, 0), events + [Enter(kind)], |Kinds(events)|)
  {
    Snoc(events, Enter(kind));
    SnocTicket(events, Enter(kind), |Kinds(events)|);
  }

  lemma EnterTold(tasks: seq<Task>, events: seq<Event>, kind: Kind)
    requires TasksTold(tasks, events) && NewUntold(events)
    ensures TasksTold(tasks + [Task(kind, false, CLOSED, 0)], events + [Enter(kind)])
  {
    var e := Enter(kind);
    Snoc(events, e);
    assert Untold(events, |tasks|);
    NewTaskTold(events, kind);
    forall t | 0 <= t < |tasks|
      ensures TaskTold(tasks[t], events + [e], t)
    {
      TaskStays(tasks[t], events, e, t);
    }
  }

  lemma BeginTold(s: State, events: seq<Event>, ticket: nat, enabled: bool)
    requires Told(s, events) && Sound(s) && Enabled(s, Begin(ticket, enabled))
    ensures TasksTold(AfterBegin(s, ticket, enabled).tasks, events + [Begin(ticket, enabled)])
  {
    var e := Begin(ticket, enabled);
    assert TaskSound(s.tasks[ticket], s.lane[ticket]);
    SnocTicket(events, e, ticket);
    Snoc(events, e);
    var task := AfterBegin(s, ticket, enabled).tasks[ticket];
    OneTaskTold(s.tasks, events, e, ticket, task);
    assert AfterBegin(s, ticket, enabled).tasks == s.tasks[ticket := task];
  }

  lemma AskTold(s: State, events: seq<Event>, ticket: nat)
    requires Told(s, events) && Enabled(s, Ask(ticket))
    ensures TasksTold(AfterAsk(s, ticket).tasks, events + [Ask(ticket)])
  {
    SnocTicket(events, Ask(ticket), ticket);
    Snoc(events, Ask(ticket));
    assert TaskTold(s.tasks[ticket], events, ticket);
    OneTaskTold(s.tasks, events, Ask(ticket), ticket, AfterAsk(s, ticket).tasks[ticket]);
  }

  /** What calling, cancelling, returning and the turns of calls make of one session. */
  lemma SessionTells(s: State, events: seq<Event>, e: Event, ticket: nat, session: Session)
    requires Told(s, events) && ticket < |s.tasks| && s.tasks[ticket].begun && !e.Enter? && e != Ask(ticket)
    requires SessionTold(s.tasks[ticket].(session := session), events + [e], ticket)
    requires Concerns(e, ticket)
    ensures TasksTold(WithSession(s, ticket, session).tasks, events + [e])
  {
    SnocTicket(events, e, ticket);
    Snoc(events, e);
    assert TaskTold(s.tasks[ticket], events, ticket);
    OneTaskTold(s.tasks, events, e, ticket, s.tasks[ticket].(session := session));
  }

  lemma CallTold(s: State, events: seq<Event>, ticket: nat)
    requires Told(s, events) && Sound(s) && Enabled(s, CallSession(ticket))
    ensures TasksTold(AfterCall(s, ticket).tasks, events + [CallSession(ticket)])
  {
    var (e, session) := (CallSession(ticket), s.tasks[ticket].session);
    assert TaskTold(s.tasks[ticket], events, ticket) && TaskSound(s.tasks[ticket], s.lane[ticket]);
    SnocTicket(events, e, ticket);
    if session.accepting {
      SessionTells(s, events, e, ticket, session.(lane := session.lane + [Waiting]));
    } else {
      SessionTells(s, events, e, ticket, session);
      assert WithSession(s, ticket, session).tasks == s.tasks;
    }
  }

  lemma CancelTold(s: State, events: seq<Event>, ticket: nat)
    requires Told(s, events) && Sound(s) && Enabled(s, Cancel(ticket))
    ensures TasksTold(AfterCancel(s, ticket).tasks, events + [Cancel(ticket)])
  {
    var (e, session) := (Cancel(ticket), s.tasks[ticket].session);
    assert TaskTold(s.tasks[ticket], events, ticket);
    SnocTicket(events, e, ticket);
    SessionTells(s, events, e, ticket, session.(accepting := false, aborted := true));
  }

  lemma WorkTold(s: State, events: seq<Event>, ticket: nat)
    requires Told(s, events) && Sound(s) && Enabled(s, WorkReturns(ticket))
    ensures TasksTold(AfterWork(s, ticket).tasks, events + [WorkReturns(ticket)])
  {
    var (e, session) := (WorkReturns(ticket), s.tasks[ticket].session);
    assert TaskTold(s.tasks[ticket], events, ticket) && TaskSound(s.tasks[ticket], s.lane[ticket]);
    SnocTicket(events, e, ticket);
    SessionTells(s, events, e, ticket,
      session.(accepting := false, lane := session.lane + [Waiting], drain := Some(|session.lane|)));
  }

  /** While a call waits for its turn, the session has not been drained. */
  lemma NotDrained(session: Session, i: nat)
    requires SessionSound(session) && i < |session.lane| && session.lane[i] != Released
    ensures !Drained(session)
  {
  }

  /** Whether a waiting call is the drain, and whether its session was cancelled, as the events tell it. */
  lemma TurnTold(s: State, events: seq<Event>, ticket: nat, i: nat)
    requires Told(s, events) && Sound(s) && Enabled(s, BeginCall(ticket, i, Work.Sends))
    ensures var session := s.tasks[ticket].session;
            && s.tasks[ticket].begun
            && (session.drain == Some(i) <==> WorkReturns(ticket) in events && i == Calls(events, ticket))
            && (session.aborted <==> Cancel(ticket) in events)
  {
    assert TaskTold(s.tasks[ticket], events, ticket) && TaskSound(s.tasks[ticket], s.lane[ticket]);
    CallerRuns(s, ticket, i);
    NotDrained(s.tasks[ticket].session, i);
  }

  lemma BeginCallSends(s: State, events: seq<Event>, ticket: nat, i: nat, work: Work)
    requires Told(s, events) && Sound(s) && Enabled(s, BeginCall(ticket, i, work))
    ensures var (after, sent) := (AfterBeginCall(s, ticket, i, work), Sends(events, BeginCall(ticket, i, work)));
            after.log == s.log + sent && after.inFlight == s.inFlight + sent
  {
    TurnTold(s, events, ticket, i);
  }

  lemma BeginCallTold(s: State, events: seq<Event>, ticket: nat, i: nat, work: Work)
    requires Told(s, events) && Sound(s) && Enabled(s, BeginCall(ticket, i, work))
    ensures TasksTold(AfterBeginCall(s, ticket, i, work).tasks, events + [BeginCall(ticket, i, work)])
  {
    var (e, session) := (BeginCall(ticket, i, work), s.tasks[ticket].session);
    TurnTold(s, events, ticket, i);
    if session.drain == Some(i) {
      TurnTells(s, events, e, ticket, session.(lane := session.lane[i := Released], aborted := true));
    } else if session.aborted || work.Rejects? {
      TurnTells(s, events, e, ticket, session.(lane := session.lane[i := Released]));
    } else {
      TurnTells(s, events, e, ticket, session.(lane := session.lane[i := Running]));
    }
  }

  /** The turn of a call leaves what is told of its session. */
  lemma TurnTells(s: State, events: seq<Event>, e: Event, ticket: nat, session: Session)
    requires Told(s, events) && ticket < |s.tasks| && s.tasks[ticket].begun
    requires e.BeginCall? || e.SleepEnds? || e.Reply?
    requires var before := s.tasks[ticket].session;
             && |session.lane| == |before.lane| && session.drain == before.drain
             && session.accepting == before.accepting
             && !Drained(before) && (session.aborted <==> before.aborted || Drained(session))
    ensures TasksTold(WithSession(s, ticket, session).tasks, events + [e])
  {
    assert TaskTold(s.tasks[ticket], events, ticket);
    SnocTicket(events, e, ticket);
    SessionTells(s, events, e, ticket, session);
  }

  /** A call that ran is over. */
  lemma CallEndTold(s: State, events: seq<Event>, e: Event, ticket: nat, i: nat)
    requires Told(s, events) && Sound(s) && (e.SleepEnds? || e.Reply?)
    requires ticket < |s.tasks| && i < |s.tasks[ticket].session.lane| && s.tasks[ticket].session.lane[i] == Running
    ensures TasksTold(AfterSleep(s, ticket, i).tasks, events + [e])
  {
    var session := s.tasks[ticket].session;
    assert TaskSound(s.tasks[ticket], s.lane[ticket]);
    CallerRuns(s, ticket, i);
    NotDrained(session, i);
    TurnTells(s, events, e, ticket, session.(lane := session.lane[i := Released]));
  }

  lemma QuietTold(s: State, events: seq<Event>, e: Event)
    requires TasksTold(s.tasks, events) && (e.Leave? || e.Reply?)
    ensures TasksTold(s.tasks, events + [e])
  {
    Snoc(events, e);
    forall t | 0 <= t < |s.tasks|
      ensures TaskTold(s.tasks[t], events + [e], t)
    {
      TaskStays(s.tasks[t], events, e, t);
    }
  }

  lemma ReplyTold(s: State, events: seq<Event>, k: nat)
    requires Told(s, events) && Sound(s) && k < |s.inFlight|
    ensures TasksTold(AfterReply(s, k).tasks, events + [Reply(k)])
  {
    var sent := s.inFlight[k];
    assert Live(sent, s.lane, s.tasks);
    if sent.part.Call? {
      CallEndTold(s, events, Reply(k), sent.ticket, sent.part.i);
    } else {
      QuietTold(s, events, Reply(k));
    }
  }

  lemma StepTasksTold(s: State, events: seq<Event>, e: Event)
    requires Told(s, events) && Sound(s) && Enabled(s, e)
    ensures TasksTold(Apply(s, e).tasks, events + [e])
  {
    match e
    case Enter(kind) => EnterTold(s.tasks, events, kind);
    case Begin(ticket, enabled) => BeginTold(s, events, ticket, enabled);
    case Ask(ticket) => AskTold(s, events, ticket);
    case Leave(ticket) => QuietTold(s, events, e);
    case CallSession(ticket) => CallTold(s, events, ticket);
    case Cancel(ticket) => CancelTold(s, events, ticket);
    case WorkReturns(ticket) => WorkTold(s, events, ticket);
    case BeginCall(ticket, i, work) => BeginCallTold(s, events, ticket, i, work);
    case SleepEnds(ticket, i) => CallEndTold(s, events, e, ticket, i);
    case Reply(k) => ReplyTold(s, events, k);
  }

  lemma StepLogTold(s: State, events: seq<Event>, e: Event)
    requires Told(s, events) && Sound(s) && Enabled(s, e)
    ensures var after := Apply(s, e);
            after.log == s.log + Sends(events, e)
            && |after.inFlight| == |s.inFlight| + |Sends(events, e)| - if e.Reply? then 1 else 0
  {
    match e
    case Ask(ticket) => assert TaskTold(s.tasks[ticket], events, ticket);
    case BeginCall(ticket, i, work) => BeginCallSends(s, events, ticket, i, work);
    case _ => assert s.log + [] == s.log;
  }

  lemma StepTold(s: State, events: seq<Event>, e: Event)
    requires Told(s, events) && Sound(s) && Enabled(s, e)
    ensures Told(Apply(s, e), events + [e])
  {
    StepTasksTold(s, events, e);
    StepLogTold(s, events, e);
    UntoldStays(events, e);
    Snoc(events, e);
  }

  lemma {:induction false} RunTold(s: State, done: seq<Event>, events: seq<Event>, end: State)
    requires Told(s, done) && Sound(s) && Run(s, events, end)
    ensures Told(end, done + events) && Sound(end)
    decreases |events|
  {
    if events == [] {
      assert done + events == done;
    } else {
      StepTold(s, done, events[0]);
      StepIsSound(s, events[0]);
      RunTold(Apply(s, events[0]), done + [events[0]], events[1..], end);
      MoveFirst(done, events);
    }
  }

  lemma MoveFirst(done: seq<Event>, events: seq<Event>)
    requires events != []
    ensures done + [events[0]] + events[1..] == done + events
  {
  }

  lemma InitialTold(s: State)
    requires s == INITIAL
    ensures Told(s, []) && Sound(s)
  {
    InitialSound(s);
  }

  // ---------------------------------------------------------------- every run

  /**
   * In every run exactly the story of its events is sent, in order: each request
   * a plain task asks for, each call that sends when its turn comes unless its
   * session was cancelled before, and the release once a program's calls are over.
   */
  lemma LogTellsTheStory(start: State, events: seq<Event>, end: State)
    requires start == INITIAL && Run(start, events, end)
    ensures end.log == Story(events) && |end.log| == |end.inFlight| + Replies(events)
  {
    InitialTold(start);
    RunTold(start, [], events, end);
    assert [] + events == events;
  }

  /** In every run each call on an open session has its place in the session's lane, behind all earlier ones. */
  lemma CallsTakeTheirPlace(start: State, events: seq<Event>, end: State, ticket: nat)
    requires start == INITIAL && Run(start, events, end) && ticket < |end.tasks|
    ensures var session := end.tasks[ticket].session;
            && |session.lane| == Calls(events, ticket) + (if WorkReturns(ticket) in events then 1 else 0)
            && (end.tasks[ticket].begun ==> (session.accepting <==> Open(events, ticket)))
  {
    InitialTold(start);
    RunTold(start, [], events, end);
    assert [] + events == events;
    assert TaskTold(end.tasks[ticket], events, ticket);
  }

  /** What one event of the run sends stands in the log. */
  lemma {:induction false} StoryHolds(events: seq<Event>, n: nat, sent: Sent) returns (k: nat)
    requires n < |events| && Sends(events[..n], events[n]) == [sent]
    ensures k < |Story(events)| && Story(events)[k] == sent
  {
    var init := events[..|events| - 1];
    if n + 1 < |events| {
      assert init[..n] == events[..n];
      k := StoryHolds(init, n, sent);
    } else {
      k := |Story(init)|;
    }
  }

  /** Every request a plain task asks for is sent. */
  lemma AskedIsSent(start: State, events: seq<Event>, end: State, n: nat, ticket: nat) returns (k: nat)
    requires start == INITIAL && Run(start, events, end) && n < |events| && events[n] == Ask(ticket)
    ensures k < |end.log| && end.log[k] == Sent(ticket, Step(Asks(events[..n], ticket)))
  {
    LogTellsTheStory(start, events, end);
    k := StoryHolds(events, n, Sent(ticket, Step(Asks(events[..n], ticket))));
  }

  /**
   * A call whose turn comes with a request to send, on a session that had not
   * been cancelled by then, sends it: exactly once, and before the release.
   */
  lemma CallIsSent(start: State, events: seq<Event>, end: State, n: nat, ticket: nat, i: nat) returns (k: nat)
    requires start == INITIAL && Run(start, events, end)
    requires n < |events| && events[n] == BeginCall(ticket, i, Work.Sends) && Cancel(ticket) !in events[..n]
    requires i < Calls(events[..n], ticket)
    ensures k < |end.log| && end.log[k] == Sent(ticket, Call(i))
    ensures forall j :: 0 <= j < |end.log| && end.log[j] == Sent(ticket, Call(i)) ==> j == k
    ensures forall j :: 0 <= j < |end.log| && end.log[j] == Sent(ticket, Release) ==> j > k
  {
    LogTellsTheStory(start, events, end);
    k := StoryHolds(events, n, Sent(ticket, Call(i)));
    forall j | 0 <= j < |end.log| && end.log[j].ticket == ticket && end.log[j].part in {Call(i), Release}
      ensures j < k ==> false
      ensures j > k ==> end.log[j].part != Call(i)
    {
      OrderedOnce(start, events, end, j, k);
    }
  }

  lemma OrderedOnce(start: State, events: seq<Event>, end: State, j: nat, k: nat)
    requires start == INITIAL && Run(start, events, end) && j < |end.log| && k < |end.log|
    ensures j < k ==> Precedes(end.log[j], end.log[k])
    ensures k < j ==> Precedes(end.log[k], end.log[j])
  {
    if j < k {
      RequestsInOrder(start, events, end, j, k);
    } else if k < j {
      RequestsInOrder(start, events, end, k, j);
    }
  }

  /** When the work of a program has returned and its calls are over, the turn of the drain sends the release. */
  lemma ReleaseIsSent(start: State, events: seq<Event>, end: State, n: nat, ticket: nat, work: Work) returns (k: nat)
    requires start == INITIAL && Run(start, events, end)
    requires n < |events| && events[n] == BeginCall(ticket, Calls(events[..n], ticket), work)
    requires WorkReturns(ticket) in events[..n]
    ensures k < |end.log| && end.log[k] == Sent(ticket, Release)
  {
    LogTellsTheStory(start, events, end);
    k := StoryHolds(events, n, Sent(ticket, Release));
  }
}
