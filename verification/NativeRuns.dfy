/**
 * What each event does in a run of the native client: which calls an answer
 * settles and how, and exactly what closes the client.
 */
module NativeRuns {
  import opened NativeClient
  import opened Wrappers

  /** Data may come in two parts at any place of any run. */
  lemma DataMaySplit(config: Config, events: seq<Event>, first: Bytes, second: Bytes)
    ensures Run(config, events + [Data(first + second)]) == Run(config, events + [Data(first)] + [Data(second)])
  {
    RunAppends(config, events, Data(first + second));
    RunAppends(config, events, Data(first));
    RunAppends(config, events + [Data(first)], Data(second));
    ChunksJoin(Run(config, events), config, first, second);
  }

  // ---------------------------------------------------------------- one line

  /** The frame of a line: without a carriage return at its end. */
  predicate FrameOf(line: Bytes, frame: Bytes) {
    || line == frame + [RETURN]
    || (line == frame && (frame != [] ==> frame[|frame| - 1] != RETURN))
  }

  /** With this chunk the open client has got a whole line. */
  predicate Completes(s: State, chunk: Bytes, line: Bytes) {
    s.closed.None? && NEWLINE !in line && s.buffer + chunk == line + [NEWLINE]
  }

  lemma StripIs(line: Bytes, frame: Bytes)
    requires FrameOf(line, frame)
    ensures Strip(line) == frame
  {
  }

  lemma OneLine(line: Bytes)
    ensures Join([line], []) == line + [NEWLINE]
  {
    assert [line][1..] == [];
    assert Join([], []) == [];
    assert line + [NEWLINE] + [] == line + [NEWLINE];
  }

  lemma OneLineRead(s: State, config: Config, line: Bytes)
    requires s.buffer == []
    ensures AfterText(s, config, [line], []) == AfterLine(s, config, line)
  {
    assert [line][1..] == [];
    assert AfterLines(s, config, [line]) == AfterLine(s, config, line);
    LinesKeepBufferEmpty(s, config, [line]);
  }

  lemma LineRead(s: State, config: Config, chunk: Bytes, line: Bytes)
    requires Completes(s, chunk, line)
    ensures AfterData(s, config, chunk) == AfterLine(s.(buffer := []), config, line)
  {
    OneLine(line);
    var full := s.(buffer := s.buffer + chunk);
    DrainReadsLines(full, config, [line], []);
    OneLineRead(s.(buffer := []), config, line);
    assert full.(buffer := []) == s.(buffer := []);
  }

  /** No pending call has this id. */
  predicate Unasked(pending: seq<Pending>, id: string) {
    forall k :: 0 <= k < |pending| ==> pending[k].id != id
  }

  lemma FindMeans(pending: seq<Pending>, id: string)
    ensures Find(pending, id) == -1 <==> Unasked(pending, id)
  {
    if Find(pending, id) == -1 {
      FindsAll(pending, id);
    }
  }

  lemma FindIs(pending: seq<Pending>, ids: seq<string>, k: nat)
    requires PendingNamed(pending, ids) && k < |pending|
    ensures Find(pending, pending[k].id) == k
  {
    FindMeans(pending, pending[k].id);
  }

  /** The k-th pending call is settled by `outcome`, which came in `frame`; all else stays. */
  function Settled(s: State, k: nat, frame: Bytes, outcome: Outcome): State
    requires k < |s.pending|
  {
    s.(buffer := [], pending := s.pending[..k] + s.pending[k + 1..], frames := s.frames + [frame],
       settled := s.settled + [Settlement(s.pending[k].ticket, outcome)])
  }

  /** The chunk completes a line within the bound whose frame decodes to `reply`. */
  predicate Brings(s: State, config: Config, chunk: Bytes, line: Bytes, frame: Bytes, reply: Reply) {
    && Completes(s, chunk, line) && |line| <= config.maxResponse
    && FrameOf(line, frame) && frame != [] && config.decode(frame) == reply
  }

  lemma BroughtFrame(config: Config, events: seq<Event>, chunk: Bytes, line: Bytes, frame: Bytes, reply: Reply)
    requires Brings(Run(config, events), config, chunk, line, frame, reply)
    ensures Run(config, events + [Data(chunk)]) == AfterFrame(Run(config, events).(buffer := []), config, frame)
  {
    RunAppends(config, events, Data(chunk));
    LineRead(Run(config, events), config, chunk, line);
    StripIs(line, frame);
  }

  /**
   * In every run an answer to a pending call resolves that call with its value,
   * and leaves every other call pending and the client open.
   */
  lemma AnswerResolves(config: Config, events: seq<Event>, chunk: Bytes, line: Bytes, frame: Bytes, k: nat,
                       value: string)
    requires k < |Run(config, events).pending|
    requires Brings(Run(config, events), config, chunk, line, frame, Answer(Run(config, events).pending[k].id, value))
    ensures Run(config, events + [Data(chunk)]) == Settled(Run(config, events), k, frame, Resolved(frame, value))
  {
    var s := Run(config, events);
    RunIsSound(config, events);
    FindIs(s.pending, s.ids, k);
    BroughtFrame(config, events, chunk, line, frame, Answer(s.pending[k].id, value));
  }

  /** A known error in answer to a pending call rejects that call with it, and does nothing else. */
  lemma RefusalRejects(config: Config, events: seq<Event>, chunk: Bytes, line: Bytes, frame: Bytes, k: nat,
                       error: Error)
    requires k < |Run(config, events).pending|
    requires Brings(Run(config, events), config, chunk, line, frame,
                    Refusal(Run(config, events).pending[k].id, Some(error)))
    ensures Run(config, events + [Data(chunk)]) == Settled(Run(config, events), k, frame, Refused(frame, error))
  {
    var s := Run(config, events);
    RunIsSound(config, events);
    FindIs(s.pending, s.ids, k);
    BroughtFrame(config, events, chunk, line, frame, Refusal(s.pending[k].id, Some(error)));
  }

  // ---------------------------------------------------------------- what closes the client

  /** The frame answers no pending call in a way the client knows. */
  predicate Useless(reply: Reply, pending: seq<Pending>) {
    || reply.Malformed?
    || (reply.Answer? && Unasked(pending, reply.id))
    || (reply.Refusal? && (Unasked(pending, reply.id) || reply.error.None?))
  }

  /** The settled calls `before` and the pending ones, rejected in order with this error. */
  function AllRejected(before: seq<Settlement>, pending: seq<Pending>, error: Error): seq<Settlement> {
    before + seq(|pending|, i requires 0 <= i < |pending| => Settlement(pending[i].ticket, Rejected(error)))
  }

  /** The client has closed with this error and rejected every pending call; `told` if it reported it. */
  predicate ClosedBy(s: State, end: State, error: Error, told: bool) {
    && end.closed == Some(error) && end.pending == [] && end.buffer == []
    && end.fatal == (if told then s.fatal + [error] else s.fatal)
    && AllRejected(s.settled, s.pending, error) <= end.settled
  }

  lemma CloseCloses(s: State, error: Error, told: bool)
    requires s.closed.None?
    ensures ClosedBy(s, AfterClose(s, error, told), error, told)
    ensures AfterClose(s, error, told).settled == AllRejected(s.settled, s.pending, error)
  {
    assert Rejections(s.pending, error) ==
           seq(|s.pending|, i requires 0 <= i < |s.pending| => Settlement(s.pending[i].ticket, Rejected(error)));
  }

  lemma FrameCloses(s: State, config: Config, frame: Bytes)
    requires s.closed.None?
    ensures var end := AfterFrame(s, config, frame);
            && (end.closed.Some? <==> Useless(config.decode(frame), s.pending))
            && (end.closed.Some? ==> ClosedBy(s, end, ProtocolInvalid, true)
                                     && end.settled == AllRejected(s.settled, s.pending, ProtocolInvalid))
  {
    CloseCloses(s.(frames := s.frames + [frame]), ProtocolInvalid, true);
    match config.decode(frame)
    case Malformed =>
    case Answer(id, _) => FindMeans(s.pending, id);
    case Refusal(id, _) => FindMeans(s.pending, id);
  }

  /**
   * A whole line closes the client exactly when it is too long, empty, malformed,
   * names no pending call or carries an error that is not known.
   */
  lemma LineCloses(config: Config, events: seq<Event>, chunk: Bytes, line: Bytes, frame: Bytes)
    requires Completes(Run(config, events), chunk, line) && FrameOf(line, frame)
    ensures var (s, end) := (Run(config, events), Run(config, events + [Data(chunk)]));
            && (end.closed.Some? <==>
                  |line| > config.maxResponse || frame == [] || Useless(config.decode(frame), s.pending))
            && (end.closed.Some? ==> ClosedBy(s, end, ProtocolInvalid, true)
                                     && end.settled == AllRejected(s.settled, s.pending, ProtocolInvalid))
  {
    var s := Run(config, events).(buffer := []);
    RunAppends(config, events, Data(chunk));
    LineRead(Run(config, events), config, chunk, line);
    StripIs(line, frame);
    CloseCloses(s, ProtocolInvalid, true);
    FrameCloses(s, config, frame);
  }

  /** An unfinished line is kept, and closes the client exactly when it is too long already. */
  lemma RestWaits(config: Config, events: seq<Event>, chunk: Bytes)
    requires Run(config, events).closed.None? && NEWLINE !in Run(config, events).buffer + chunk
    ensures var (s, end) := (Run(config, events), Run(config, events + [Data(chunk)]));
            if |s.buffer + chunk| <= config.maxResponse then end == s.(buffer := s.buffer + chunk)
            else ClosedBy(s, end, ProtocolInvalid, true)
                 && end.settled == AllRejected(s.settled, s.pending, ProtocolInvalid)
  {
    var s := Run(config, events);
    var rest := s.buffer + chunk;
    RunAppends(config, events, Data(chunk));
    DrainReadsLines(s.(buffer := rest), config, [], rest);
    CloseCloses(s.(buffer := []), ProtocolInvalid, true);
  }

  /** The call can be sent. */
  predicate Sendable(s: State, config: Config, e: Event)
    requires e.Request?
  {
    e.timeoutValid && e.id != "" && Unasked(s.pending, e.id) && e.length.Some? && e.length.value <= config.maxRequest
  }

  /** Its id is empty or is that of a pending call. */
  predicate BadId(s: State, e: Event)
    requires e.Request?
  {
    e.timeoutValid && (e.id == "" || !Unasked(s.pending, e.id))
  }

  /** In every run a call that can be sent waits for its answer. */
  lemma RequestWaits(config: Config, events: seq<Event>, e: Event)
    requires e.Request? && Run(config, events).closed.None? && Sendable(Run(config, events), config, e) && !e.throws
    ensures var s := Run(config, events);
            Run(config, events + [e]) == s.(ids := s.ids + [e.id], pending := s.pending + [Pending(e.id, |s.ids|)])
  {
    RunAppends(config, events, e);
    FindMeans(Run(config, events).pending, e.id);
  }

  /** A call whose write throws closes the client, its own promise rejected last. */
  lemma ThrowingWriteCloses(config: Config, events: seq<Event>, e: Event)
    requires e.Request? && Run(config, events).closed.None? && Sendable(Run(config, events), config, e) && e.throws
    ensures var (s, end) := (Run(config, events), Run(config, events + [e]));
            && end.ids == s.ids + [e.id] && ClosedBy(s, end, Unavailable, true)
            && end.settled == AllRejected(s.settled, s.pending, Unavailable)
                              + [Settlement(|s.ids|, Rejected(Unavailable))]
  {
    var s := Run(config, events);
    RunAppends(config, events, e);
    FindMeans(s.pending, e.id);
    var waiting := s.(ids := s.ids + [e.id], pending := s.pending + [Pending(e.id, |s.ids|)]);
    CloseCloses(waiting, Unavailable, true);
    OneMoreRejected(s.settled, s.pending, Pending(e.id, |s.ids|), Unavailable);
  }

  lemma OneMoreRejected(settled: seq<Settlement>, pending: seq<Pending>, last: Pending, error: Error)
    ensures AllRejected(settled, pending + [last], error)
            == AllRejected(settled, pending, error) + [Settlement(last.ticket, Rejected(error))]
  {
  }

  /** Any other call is rejected at once, and closes the client exactly when its id is empty or pending. */
  lemma RequestRefused(config: Config, events: seq<Event>, e: Event)
    requires e.Request? && Run(config, events).closed.None? && !Sendable(Run(config, events), config, e)
    ensures var (s, end) := (Run(config, events), Run(config, events + [e]));
            var own := Settlement(|s.ids|, Rejected(ProtocolInvalid));
            && |end.ids| == |s.ids| + 1
            && if BadId(s, e) then
                 && ClosedBy(s, end, ProtocolInvalid, true)
                 && end.settled == AllRejected(s.settled, s.pending, ProtocolInvalid) + [own]
               else
                 end == s.(ids := end.ids, settled := s.settled + [own])
  {
    var s := Run(config, events);
    RunAppends(config, events, e);
    FindMeans(s.pending, e.id);
    CloseCloses(s, ProtocolInvalid, true);
  }

  /** In every run a timer, a failing stream and `close` close an open client, each with its own error. */
  lemma FailureCloses(config: Config, events: seq<Event>, e: Event)
    requires Run(config, events).closed.None? && !e.Request? && !e.Data?
    requires e.Timer? ==> e.k < |Run(config, events).pending|
    ensures var (s, end) := (Run(config, events), Run(config, events + [e]));
            var error := if e.Timer? then TimedOut else if e.Close? then e.error else Unavailable;
            ClosedBy(s, end, error, !e.Close?) && end.settled == AllRejected(s.settled, s.pending, error)
  {
    RunAppends(config, events, e);
    var error := if e.Timer? then TimedOut else if e.Close? then e.error else Unavailable;
    CloseCloses(Run(config, events), error, !e.Close?);
  }
}
