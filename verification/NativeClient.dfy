/**
 * The client of the native helper, src/computer/computer-native-client.ts:
 * answers arrive as newline-ended frames in chunks of any size, and each is
 * handed to the request whose id it carries.
 */
module NativeClient {
  import opened Wrappers

  datatype Error = ProtocolInvalid | Unavailable | TimedOut | Native(code: string)

  /** What decoding, parsing and checking one frame gives; `error` is None when its code is not a known one. */
  datatype Reply =
    | Malformed
    | Answer(id: string, value: string)
    | Refusal(id: string, error: Option<Error>)

  datatype Config = Config(maxRequest: nat, maxResponse: nat, decode: Bytes -> Reply)

  /** A map entry; the position of an entry in `pending` is the map's insertion order. */
  datatype Pending = Pending(id: string, ticket: nat)

  datatype Outcome = Resolved(frame: Bytes, value: string) | Refused(frame: Bytes, error: Error)
      | Rejected(error: Error)

  /** One call of a promise's `resolve` or `reject`. */
  datatype Settlement = Settlement(ticket: nat, outcome: Outcome)

  /** Calls of `request` are numbered; `ids`, `frames`, `settled` and `fatal` record what has happened. */
  datatype State = State(
    buffer: Bytes,
    pending: seq<Pending>,
    closed: Option<Error>,
    ids: seq<string>,
    frames: seq<Bytes>,
    settled: seq<Settlement>,
    fatal: seq<Error>)

  const INITIAL := State([], [], None, [], [], [], [])

  const NEWLINE: Byte := 10

  const RETURN: Byte := 13

  // ---------------------------------------------------------------- closing

  function Rejections(pending: seq<Pending>, error: Error): seq<Settlement> {
    seq(|pending|, i requires 0 <= i < |pending| => Settlement(pending[i].ticket, Rejected(error)))
  }

  function AfterClose(s: State, error: Error, notify: bool): State {
    if s.closed.Some? then s
    else s.(closed := Some(error), buffer := [], pending := [],
            settled := s.settled + Rejections(s.pending, error),
            fatal := if notify then s.fatal + [error] else s.fatal)
  }

  function Poison(s: State, error: Error): State {
    AfterClose(s, error, true)
  }

  // ---------------------------------------------------------------- answers

  /** `pending.get(id)`: where the entry is. */
  function Find(pending: seq<Pending>, id: string): (k: int)
    ensures k == -1 || (0 <= k < |pending| && pending[k].id == id)
  {
    if pending == [] then -1
    else if pending[|pending| - 1].id == id then |pending| - 1
    else Find(pending[..|pending| - 1], id)
  }

  function Without(pending: seq<Pending>, k: nat): seq<Pending>
    requires k < |pending|
  {
    pending[..k] + pending[k + 1..]
  }

  function AfterAnswer(s: State, k: nat, outcome: Outcome): State
    requires k < |s.pending|
  {
    s.(pending := Without(s.pending, k), settled := s.settled + [Settlement(s.pending[k].ticket, outcome)])
  }

  function AfterFrame(s: State, config: Config, frame: Bytes): (after: State)
    ensures after.buffer == s.buffer || after.buffer == []
  {
    var taken := s.(frames := s.frames + [frame]);
    match config.decode(frame)
    case Malformed => Poison(taken, ProtocolInvalid)
    case Answer(id, value) =>
      var k := Find(s.pending, id);
      if k == -1 then Poison(taken, ProtocolInvalid) else AfterAnswer(taken, k, Resolved(frame, value))
    case Refusal(id, error) =>
      var k := Find(s.pending, id);
      if k == -1 || error.None? then Poison(taken, ProtocolInvalid)
      else AfterAnswer(taken, k, Refused(frame, error.value))
  }

  // ---------------------------------------------------------------- framing

  /** `buffer.indexOf(0x0a)` */
  function Newline(data: Bytes): (at: int)
    ensures at == -1 || 0 <= at < |data|
  {
    if data == [] then -1
    else if data[0] == NEWLINE then 0
    else
      var at := Newline(data[1..]);
      if at == -1 then -1 else at + 1
  }

  function Strip(line: Bytes): Bytes {
    if line != [] && line[|line| - 1] == RETURN then line[..|line| - 1] else line
  }

  /** `drainFrames` */
  function AfterDrain(s: State, config: Config): State
    decreases |s.buffer|
  {
    if s.closed.Some? then s
    else
      var at := Newline(s.buffer);
      if at == -1 then
        if |s.buffer| > config.maxResponse then Poison(s, ProtocolInvalid) else s
      else if at > config.maxResponse then Poison(s, ProtocolInvalid)
      else
        var rest := s.(buffer := s.buffer[at + 1..]);
        var frame := Strip(s.buffer[..at]);
        if frame == [] then Poison(rest, ProtocolInvalid) else AfterDrain(AfterFrame(rest, config, frame), config)
  }

  function AfterData(s: State, config: Config, chunk: Bytes): State {
    if s.closed.Some? then s else AfterDrain(s.(buffer := s.buffer + chunk), config)
  }

  // ---------------------------------------------------------------- requests

  /** A promise handed out already rejected. */
  function AfterRefusal(s: State, id: string, error: Error): State {
    s.(ids := s.ids + [id], settled := s.settled + [Settlement(|s.ids|, Rejected(error))])
  }

  /** `length` is None when the request cannot be printed as JSON; `throws`: the write throws. */
  function AfterRequest(s: State, config: Config, timeoutValid: bool, id: string, length: Option<nat>,
                        throws: bool): State {
    if s.closed.Some? then AfterRefusal(s, "", s.closed.value)
    else if !timeoutValid then AfterRefusal(s, "", ProtocolInvalid)
    else if id == "" || Find(s.pending, id) != -1 then AfterRefusal(Poison(s, ProtocolInvalid), id, ProtocolInvalid)
    else if length.None? || length.value > config.maxRequest then AfterRefusal(s, id, ProtocolInvalid)
    else
      var waiting := s.(ids := s.ids + [id], pending := s.pending + [Pending(id, |s.ids|)]);
      if throws then Poison(waiting, Unavailable) else waiting
  }

  datatype Event =
    | Request(timeoutValid: bool, id: string, length: Option<nat>, throws: bool)
    | Data(chunk: Bytes)
    | Timer(k: nat)   // the timer of the k-th pending request
    | WriteError
    | StreamError
    | StreamEnd
    | Close(error: Error)

  /** Settling a request clears its timer, so only timers of pending requests fire. */
  function Apply(s: State, config: Config, e: Event): State {
    match e
    case Request(timeoutValid, id, length, throws) => AfterRequest(s, config, timeoutValid, id, length, throws)
    case Data(chunk) => AfterData(s, config, chunk)
    case Timer(k) => if k < |s.pending| then Poison(s, TimedOut) else s
    case WriteError => Poison(s, Unavailable)
    case StreamError => Poison(s, Unavailable)
    case StreamEnd => Poison(s, Unavailable)
    case Close(error) => AfterClose(s, error, false)
  }

  // ---------------------------------------------------------------- the client object

  class Client {
    const config: Config
    var buffer: Bytes
    var pending: seq<Pending>
    var closedError: Option<Error>
    var ids: seq<string>             // its length names the next promise
    ghost var frames: seq<Bytes>
    ghost var settled: seq<Settlement>
    ghost var fatal: seq<Error>

    ghost function Snapshot(): State
      reads this
    {
      State(buffer, pending, closedError, ids, frames, settled, fatal)
    }

    constructor (config: Config)
      ensures this.config == config && Snapshot() == INITIAL
    {
      this.config := config;
      buffer, pending, closedError := [], [], None;
      ids, frames, settled, fatal := [], [], [], [];
    }

    method FinishClose(error: Error, notifyFatal: bool)
      modifies this
      ensures Snapshot() == AfterClose(old(Snapshot()), error, notifyFatal)
    {
      if closedError.Some? {
        return;
      }
      closedError := Some(error);
      buffer := [];
      var i := 0;
      while i < |pending|
        invariant 0 <= i <= |pending|
        invariant settled == old(settled) + Rejections(pending, error)[..i]
        invariant (buffer, pending, closedError, ids, frames, fatal)
               == ([], old(pending), Some(error), old(ids), old(frames), old(fatal))
      {
        settled := settled + [Settlement(pending[i].ticket, Rejected(error))];
        i := i + 1;
      }
      pending := [];
      if notifyFatal {
        fatal := fatal + [error];
      }
    }

    method HandleFrame(frame: Bytes)
      modifies this
      ensures Snapshot() == AfterFrame(old(Snapshot()), config, frame)
    {
      frames := frames + [frame];
      var reply := config.decode(frame);
      if reply.Malformed? {
        FinishClose(ProtocolInvalid, true);
        return;
      }
      var k := Find(pending, reply.id);
      if k == -1 {
        FinishClose(ProtocolInvalid, true);
        return;
      }
      if reply.Refusal? && reply.error.None? {
        FinishClose(ProtocolInvalid, true);
        return;
      }
      var ticket := pending[k].ticket;
      pending := Without(pending, k);
      if reply.Answer? {
        settled := settled + [Settlement(ticket, Resolved(frame, reply.value))];
      } else {
        settled := settled + [Settlement(ticket, Refused(frame, reply.error.value))];
      }
    }

    method DrainFrames()
      modifies this
      ensures Snapshot() == AfterDrain(old(Snapshot()), config)
    {
      while closedError.None?
        invariant AfterDrain(Snapshot(), config) == AfterDrain(old(Snapshot()), config)
        decreases closedError.None?, |buffer|
      {
        var at := Newline(buffer);
        if at == -1 {
          if |buffer| > config.maxResponse {
            FinishClose(ProtocolInvalid, true);
          }
          return;
        }
        if at > config.maxResponse {
          FinishClose(ProtocolInvalid, true);
          return;
        }
        var frame := Strip(buffer[..at]);
        buffer := buffer[at + 1..];
        if frame == [] {
          FinishClose(ProtocolInvalid, true);
          return;
        }
        HandleFrame(frame);
      }
    }

    method HandleData(chunk: Bytes)
      modifies this
      ensures Snapshot() == AfterData(old(Snapshot()), config, chunk)
    {
      if closedError.Some? {
        return;
      }
      buffer := buffer + chunk;
      DrainFrames();
    }

    method Request(timeoutValid: bool, id: string, length: Option<nat>, throws: bool)
      modifies this
      ensures Snapshot() == AfterRequest(old(Snapshot()), config, timeoutValid, id, length, throws)
    {
      var ticket := |ids|;
      if closedError.Some? {
        settled, ids := settled + [Settlement(ticket, Rejected(closedError.value))], ids + [""];
        return;
      }
      if !timeoutValid {
        settled, ids := settled + [Settlement(ticket, Rejected(ProtocolInvalid))], ids + [""];
        return;
      }
      if id == "" || Find(pending, id) != -1 {
        FinishClose(ProtocolInvalid, true);
        settled, ids := settled + [Settlement(ticket, Rejected(ProtocolInvalid))], ids + [id];
        return;
      }
      if length.None? || length.value > config.maxRequest {
        settled, ids := settled + [Settlement(ticket, Rejected(ProtocolInvalid))], ids + [id];
        return;
      }
      pending, ids := pending + [Pending(id, ticket)], ids + [id];
      if throws {
        FinishClose(Unavailable, true);
      }
    }
  }

  // ---------------------------------------------------------------- what the bytes mean

  predicate Unbroken(line: Bytes) {
    NEWLINE !in line
  }

  predicate AllUnbroken(lines: seq<Bytes>) {
    forall i :: 0 <= i < |lines| ==> Unbroken(lines[i])
  }

  /** The bytes of `lines`, each ended by a newline, and of an unfinished `rest`. */
  function Join(lines: seq<Bytes>, rest: Bytes): Bytes {
    if lines == [] then rest else lines[0] + [NEWLINE] + Join(lines[1..], rest)
  }

  /** One whole line: the bound is on the raw line, and nothing may be left after one carriage return is cut. */
  function AfterLine(s: State, config: Config, line: Bytes): State {
    if s.closed.Some? then s
    else if |line| > config.maxResponse || Strip(line) == [] then Poison(s, ProtocolInvalid)
    else AfterFrame(s, config, Strip(line))
  }

  function AfterLines(s: State, config: Config, lines: seq<Bytes>): State
    decreases |lines|
  {
    if lines == [] then s else AfterLines(AfterLine(s, config, lines[0]), config, lines[1..])
  }

  function AfterRest(s: State, config: Config, rest: Bytes): State {
    if s.closed.Some? then s
    else if |rest| > config.maxResponse then Poison(s, ProtocolInvalid)
    else s.(buffer := rest)
  }

  /** The framing the client means: line by line, then the bound on what is unfinished. */
  function AfterText(s: State, config: Config, lines: seq<Bytes>, rest: Bytes): State {
    AfterRest(AfterLines(s.(buffer := []), config, lines), config, rest)
  }

  /** The lines of a stream and what follows the last newline. */
  function Split(stream: Bytes): (seq<Bytes>, Bytes)
    decreases |stream|
  {
    var at := Newline(stream);
    if at == -1 then ([], stream)
    else
      var (lines, rest) := Split(stream[at + 1..]);
      ([stream[..at]] + lines, rest)
  }

  lemma {:induction false} NewlineIsFirst(data: Bytes)
    ensures var at := Newline(data);
            if at == -1 then Unbroken(data) else data[at] == NEWLINE && Unbroken(data[..at])
  {
    if data != [] && data[0] != NEWLINE {
      NewlineIsFirst(data[1..]);
      var at := Newline(data);
      if at == -1 {
        assert data == [data[0]] + data[1..];
      } else {
        assert data[..at] == [data[0]] + data[1..][..at - 1];
      }
    }
  }

  lemma {:induction false} NewlineAfter(line: Bytes, more: Bytes)
    requires Unbroken(line)
    ensures Newline(line) == -1
    ensures Newline(line + [NEWLINE] + more) == |line|
  {
    if line != [] {
      assert (line + [NEWLINE] + more)[1..] == line[1..] + [NEWLINE] + more;
      NewlineAfter(line[1..], more);
    }
  }

  /** Every stream is the text of exactly one list of lines and one unfinished rest. */
  lemma {:induction false} SplitJoins(stream: Bytes)
    ensures var (lines, rest) := Split(stream);
            Join(lines, rest) == stream && AllUnbroken(lines) && Unbroken(rest)
    decreases |stream|
  {
    NewlineIsFirst(stream);
    var at := Newline(stream);
    if at != -1 {
      SplitJoins(stream[at + 1..]);
      var (lines, rest) := Split(stream[at + 1..]);
      assert ([stream[..at]] + lines)[1..] == lines;
      CutAt(stream, at);
    }
  }

  lemma CutAt(stream: Bytes, at: nat)
    requires at < |stream| && stream[at] == NEWLINE
    ensures stream == stream[..at] + [NEWLINE] + stream[at + 1..]
  {
  }

  lemma {:induction false} JoinSplits(lines: seq<Bytes>, rest: Bytes)
    requires AllUnbroken(lines) && Unbroken(rest)
    ensures Split(Join(lines, rest)) == (lines, rest)
  {
    if lines == [] {
      NewlineAfter(rest, []);
    } else {
      var more := Join(lines[1..], rest);
      var stream := lines[0] + [NEWLINE] + more;
      NewlineAfter(lines[0], more);
      assert stream[..|lines[0]|] == lines[0] && stream[|lines[0]| + 1..] == more;
      JoinSplits(lines[1..], rest);
      assert lines == [lines[0]] + lines[1..];
    }
  }

  lemma {:induction false} JoinJoins(first: seq<Bytes>, second: seq<Bytes>, rest: Bytes)
    ensures Join(first + second, rest) == Join(first, Join(second, rest))
  {
    if first == [] {
      assert first + second == second;
    } else {
      assert (first + second)[1..] == first[1..] + second;
      JoinJoins(first[1..], second, rest);
    }
  }

  /** Handling a frame leaves what is still in the buffer alone, or closes the client. */
  lemma FrameIgnoresBuffer(s: State, config: Config, frame: Bytes, buffer: Bytes)
    ensures var (with, without) := (AfterFrame(s.(buffer := buffer), config, frame), AfterFrame(s, config, frame));
            with == if without.closed.Some? && s.closed.None? then without else without.(buffer := buffer)
  {
  }

  lemma {:induction false} ClosedReadsNothing(s: State, config: Config, lines: seq<Bytes>)
    requires s.closed.Some?
    ensures AfterLines(s, config, lines) == s
  {
    if lines != [] {
      ClosedReadsNothing(s, config, lines[1..]);
    }
  }

  /** The draining loop handles a text line by line. */
  lemma {:induction false} DrainReadsLines(s: State, config: Config, lines: seq<Bytes>, rest: Bytes)
    requires AllUnbroken(lines) && Unbroken(rest)
    requires s.closed.None? && s.buffer == Join(lines, rest)
    ensures AfterDrain(s, config) == AfterText(s, config, lines, rest)
    decreases |lines|
  {
    if lines == [] {
      NewlineAfter(rest, []);
    } else {
      var (line, more) := (lines[0], Join(lines[1..], rest));
      NewlineAfter(line, more);
      assert s.buffer[..|line|] == line && s.buffer[|line| + 1..] == more;
      var empty := s.(buffer := []);
      var next := AfterLine(empty, config, line);
      if |line| <= config.maxResponse && Strip(line) != [] {
        FrameIgnoresBuffer(empty, config, Strip(line), more);
      }
      if next.closed.Some? {
        ClosedReadsNothing(next, config, lines[1..]);
      } else {
        DrainReadsLines(next.(buffer := more), config, lines[1..], rest);
        assert next.buffer == [];
      }
    }
  }

  lemma {:induction false} LinesAppend(s: State, config: Config, first: seq<Bytes>, second: seq<Bytes>)
    ensures AfterLines(s, config, first + second) == AfterLines(AfterLines(s, config, first), config, second)
    decreases |first|
  {
    if first == [] {
      assert first + second == second;
    } else {
      assert (first + second)[1..] == first[1..] + second;
      LinesAppend(AfterLine(s, config, first[0]), config, first[1..], second);
    }
  }

  lemma {:induction false} LinesKeepBufferEmpty(s: State, config: Config, lines: seq<Bytes>)
    requires s.buffer == []
    ensures AfterLines(s, config, lines).buffer == []
    decreases |lines|
  {
    if lines != [] {
      LinesKeepBufferEmpty(AfterLine(s, config, lines[0]), config, lines[1..]);
    }
  }

  /** A rest that is too long is the beginning of a line, or of a rest, that is too long. */
  lemma LongRestStaysLong(s: State, config: Config, rest: Bytes, chunk: Bytes, lines: seq<Bytes>, last: Bytes)
    requires Unbroken(rest) && Join(lines, last) == rest + chunk
    requires s.closed.None? && |rest| > config.maxResponse
    ensures AfterRest(AfterLines(s, config, lines), config, last) == Poison(s, ProtocolInvalid)
  {
    if lines != [] {
      assert (rest + chunk)[|lines[0]|] == NEWLINE;
      ClosedReadsNothing(Poison(s, ProtocolInvalid), config, lines[1..]);
    }
  }

  /** A text cut inside an unfinished line can be read in two parts. */
  lemma TextInParts(s: State, config: Config, lines: seq<Bytes>, rest: Bytes, chunk: Bytes, more: seq<Bytes>,
                    last: Bytes)
    requires Unbroken(rest) && Join(more, last) == rest + chunk && s.closed.None?
    ensures var halfway := AfterText(s, config, lines, rest);
            AfterText(s, config, lines + more, last)
            == if halfway.closed.Some? then halfway else AfterText(halfway, config, more, last)
  {
    var empty := s.(buffer := []);
    var middle := AfterLines(empty, config, lines);
    LinesAppend(empty, config, lines, more);
    LinesKeepBufferEmpty(empty, config, lines);
    if middle.closed.Some? {
      ClosedReadsNothing(middle, config, more);
    } else if |rest| > config.maxResponse {
      LongRestStaysLong(middle, config, rest, chunk, more, last);
    } else {
      assert middle.(buffer := rest).(buffer := []) == middle;
    }
  }

  /** Two chunks do what their concatenation does. */
  lemma ChunksJoin(s: State, config: Config, first: Bytes, second: Bytes)
    ensures AfterData(AfterData(s, config, first), config, second) == AfterData(s, config, first + second)
  {
    if s.closed.None? {
      var (lines, rest) := Split(s.buffer + first);
      SplitJoins(s.buffer + first);
      var (more, last) := Split(rest + second);
      SplitJoins(rest + second);
      DrainReadsLines(s.(buffer := s.buffer + first), config, lines, rest);
      var halfway := AfterText(s, config, lines, rest);
      if halfway.closed.None? {
        DrainReadsLines(halfway.(buffer := rest + second), config, more, last);
      }
      TextInParts(s, config, lines, rest, second, more, last);
      assert Join(lines + more, last) == s.buffer + (first + second) by {
        JoinJoins(lines, more, last);
        JoinAppends(lines, rest, second);
        assert s.buffer + first + second == s.buffer + (first + second);
      }
      DrainReadsLines(s.(buffer := s.buffer + (first + second)), config, lines + more, last);
    }
  }

  lemma {:induction false} JoinAppends(lines: seq<Bytes>, rest: Bytes, chunk: Bytes)
    ensures Join(lines, rest) + chunk == Join(lines, rest + chunk)
  {
    if lines != [] {
      JoinAppends(lines[1..], rest, chunk);
      var (head, more) := (lines[0] + [NEWLINE], Join(lines[1..], rest));
      assert head + more + chunk == head + (more + chunk);
    }
  }

  /** What an open client holds between two events: an unfinished line within the bound. */
  predicate Framed(s: State, config: Config) {
    s.closed.None? ==> Unbroken(s.buffer) && |s.buffer| <= config.maxResponse
  }

  lemma EmptyChunk(s: State, config: Config)
    requires Framed(s, config)
    ensures AfterData(s, config, []) == s
  {
    assert s.buffer + [] == s.buffer;
    if s.closed.None? {
      NewlineAfter(s.buffer, []);
    }
  }

  function Concat(chunks: seq<Bytes>): Bytes {
    if chunks == [] then [] else chunks[0] + Concat(chunks[1..])
  }

  function AfterChunks(s: State, config: Config, chunks: seq<Bytes>): State
    decreases |chunks|
  {
    if chunks == [] then s else AfterChunks(AfterData(s, config, chunks[0]), config, chunks[1..])
  }

  lemma DataLeavesFramed(s: State, config: Config, chunk: Bytes)
    ensures Framed(AfterData(s, config, chunk), config)
  {
    if s.closed.None? {
      var (lines, rest) := Split(s.buffer + chunk);
      SplitJoins(s.buffer + chunk);
      DrainReadsLines(s.(buffer := s.buffer + chunk), config, lines, rest);
    }
  }

  /**
   * However a stream is cut into chunks, the client ends in the state that
   * reading its lines one after the other gives: the same frames, the same
   * settlements, the same failure.
   */
  lemma {:induction false} FramingIgnoresChunks(s: State, config: Config, chunks: seq<Bytes>, lines: seq<Bytes>,
                                                rest: Bytes)
    requires Framed(s, config) && s.closed.None?
    requires AllUnbroken(lines) && Unbroken(rest) && s.buffer + Concat(chunks) == Join(lines, rest)
    ensures AfterChunks(s, config, chunks) == AfterText(s, config, lines, rest)
  {
    ChunksAreOne(s, config, chunks);
    DrainReadsLines(s.(buffer := s.buffer + Concat(chunks)), config, lines, rest);
  }

  lemma {:induction false} ChunksAreOne(s: State, config: Config, chunks: seq<Bytes>)
    requires Framed(s, config)
    ensures AfterChunks(s, config, chunks) == AfterData(s, config, Concat(chunks))
    decreases |chunks|
  {
    if chunks == [] {
      EmptyChunk(s, config);
    } else {
      DataLeavesFramed(s, config, chunks[0]);
      ChunksAreOne(AfterData(s, config, chunks[0]), config, chunks[1..]);
      ChunksJoin(s, config, chunks[0], Concat(chunks[1..]));
    }
  }

  function Stripped(lines: seq<Bytes>): seq<Bytes> {
    seq(|lines|, i requires 0 <= i < |lines| => Strip(lines[i]))
  }

  /** The frames taken are the lines, each without its carriage return, up to the one that closed the client. */
  lemma {:induction false} FramesAreLines(s: State, config: Config, lines: seq<Bytes>) returns (n: nat)
    ensures n <= |lines|
    ensures AfterLines(s, config, lines).frames == s.frames + Stripped(lines[..n])
    ensures AfterLines(s, config, lines).closed.None? ==> n == |lines|
    decreases |lines|
  {
    n := 0;
    if lines == [] || s.closed.Some? {
      ClosedReads(s, config, lines);
    } else {
      var next := AfterLine(s, config, lines[0]);
      LineTakesFrame(s, config, lines[0]);
      if LineTaken(config, lines[0]) {
        n := FramesAreLines(next, config, lines[1..]);
        n := n + 1;
        StrippedHead(lines, n);
      } else {
        ClosedReads(next, config, lines[1..]);
      }
    }
  }

  predicate LineTaken(config: Config, line: Bytes) {
    |line| <= config.maxResponse && Strip(line) != []
  }

  lemma LineTakesFrame(s: State, config: Config, line: Bytes)
    requires s.closed.None?
    ensures var next := AfterLine(s, config, line);
            if LineTaken(config, line) then next.frames == s.frames + [Strip(line)]
            else next.frames == s.frames && next.closed.Some?
  {
  }

  lemma StrippedHead(lines: seq<Bytes>, n: nat)
    requires 0 < n <= |lines|
    ensures Stripped(lines[..n]) == [Strip(lines[0])] + Stripped(lines[1..][..n - 1])
  {
    assert lines[..n] == [lines[0]] + lines[1..][..n - 1];
  }

  lemma ClosedReads(s: State, config: Config, lines: seq<Bytes>)
    requires lines == [] || s.closed.Some?
    ensures AfterLines(s, config, lines) == s
  {
    if lines != [] {
      ClosedReadsNothing(s, config, lines);
    }
  }

  // ---------------------------------------------------------------- every run

  /** The state after any events in any order. */
  function Run(config: Config, events: seq<Event>): State {
    if events == [] then INITIAL
    else Apply(Run(config, events[..|events| - 1]), config, events[|events| - 1])
  }

  lemma RunAppends(config: Config, events: seq<Event>, e: Event)
    ensures Run(config, events + [e]) == Apply(Run(config, events), config, e)
  {
    assert (events + [e])[..|events|] == events;
  }

  function Tickets(settled: seq<Settlement>): seq<nat> {
    seq(|settled|, i requires 0 <= i < |settled| => settled[i].ticket)
  }

  function Waiting(pending: seq<Pending>): seq<nat> {
    seq(|pending|, i requires 0 <= i < |pending| => pending[i].ticket)
  }

  function Calls(n: nat): seq<nat> {
    seq(n, i requires 0 <= i < n => i)
  }

  /** Every call is pending or settled, and no call is both or settled twice. */
  predicate Accounted(s: State) {
    multiset(Tickets(s.settled) + Waiting(s.pending)) == multiset(Calls(|s.ids|))
  }

  predicate Named(entry: Pending, ids: seq<string>) {
    entry.ticket < |ids| && entry.id == ids[entry.ticket] && entry.id != ""
  }

  predicate PendingNamed(pending: seq<Pending>, ids: seq<string>) {
    && (forall i :: 0 <= i < |pending| ==> Named(pending[i], ids))
    && (forall i, j :: 0 <= i < j < |pending| ==> pending[i].id != pending[j].id)
  }

  /** The settlement is what the frame it came from says, and that frame names the call. */
  predicate Answers(settlement: Settlement, config: Config, ids: seq<string>) {
    && settlement.ticket < |ids|
    && match settlement.outcome
       case Resolved(frame, value) => config.decode(frame) == Answer(ids[settlement.ticket], value)
       case Refused(frame, error) => config.decode(frame) == Refusal(ids[settlement.ticket], Some(error))
       case Rejected(_) => true
  }

  predicate AllAnswer(s: State, config: Config) {
    forall i :: 0 <= i < |s.settled| ==> Answers(s.settled[i], config, s.ids)
  }

  /** The frames that settled a call, in order. */
  function Used(settled: seq<Settlement>): seq<Bytes> {
    if settled == [] then []
    else
      var (before, last) := (Used(settled[..|settled| - 1]), settled[|settled| - 1].outcome);
      if last.Rejected? then before else before + [last.frame]
  }

  /** No frame is lost or used twice; only the last one may have closed the client instead. */
  predicate FramesUsed(s: State) {
    || Used(s.settled) == s.frames
    || (s.closed.Some? && s.frames != [] && Used(s.settled) == s.frames[..|s.frames| - 1])
  }

  predicate Stopped(s: State) {
    && (s.closed.Some? ==> s.pending == [] && s.buffer == [])
    && (s.fatal == [] || (s.closed.Some? && s.fatal == [s.closed.value]))
  }

  predicate Sound(s: State, config: Config) {
    Accounted(s) && PendingNamed(s.pending, s.ids) && AllAnswer(s, config) && FramesUsed(s) && Stopped(s)
  }

  lemma {:induction false} UsedAppends(settled: seq<Settlement>, pending: seq<Pending>, error: Error)
    ensures Used(settled + Rejections(pending, error)) == Used(settled)
    decreases |pending|
  {
    var all := settled + Rejections(pending, error);
    if pending == [] {
      assert all == settled;
    } else {
      var init := pending[..|pending| - 1];
      assert all[..|all| - 1] == settled + Rejections(init, error);
      UsedAppends(settled, init, error);
    }
  }

  lemma UsedGrows(settled: seq<Settlement>, last: Settlement)
    ensures Used(settled + [last]) ==
            if last.outcome.Rejected? then Used(settled) else Used(settled) + [last.outcome.frame]
  {
    assert (settled + [last])[..|settled|] == settled;
  }

  lemma RejectionTickets(settled: seq<Settlement>, pending: seq<Pending>, error: Error)
    ensures Tickets(settled + Rejections(pending, error)) == Tickets(settled) + Waiting(pending)
  {
  }

  lemma CloseAccounts(s: State, error: Error, notify: bool)
    requires Accounted(s)
    ensures Accounted(AfterClose(s, error, notify))
  {
    RejectionTickets(s.settled, s.pending, error);
    var all := Tickets(s.settled) + Waiting(s.pending);
    assert all + Waiting([]) == all;
  }

  lemma CloseAnswers(s: State, config: Config, error: Error, notify: bool)
    requires PendingNamed(s.pending, s.ids) && AllAnswer(s, config)
    ensures AllAnswer(AfterClose(s, error, notify), config)
  {
    var after := AfterClose(s, error, notify);
    forall i | 0 <= i < |after.settled|
      ensures Answers(after.settled[i], config, after.ids)
    {
      if i < |s.settled| {
        assert Answers(s.settled[i], config, s.ids);
      } else {
        assert Named(s.pending[i - |s.settled|], s.ids);
      }
    }
  }

  lemma CloseIsSound(s: State, config: Config, error: Error, notify: bool)
    requires Accounted(s) && PendingNamed(s.pending, s.ids) && AllAnswer(s, config) && Stopped(s)
    requires FramesUsed(s) || (s.frames != [] && Used(s.settled) == s.frames[..|s.frames| - 1])
    ensures Sound(AfterClose(s, error, notify), config)
  {
    CloseAccounts(s, error, notify);
    CloseAnswers(s, config, error, notify);
    UsedAppends(s.settled, s.pending, error);
  }

  lemma AnswerAccounts(s: State, k: nat, outcome: Outcome)
    requires Accounted(s) && k < |s.pending|
    ensures Accounted(AfterAnswer(s, k, outcome))
  {
    var after := AfterAnswer(s, k, outcome);
    var (settled, before, ticket, behind) :=
      (Tickets(s.settled), Waiting(s.pending[..k]), [s.pending[k].ticket], Waiting(s.pending[k + 1..]));
    assert Tickets(after.settled) == settled + ticket;
    assert Waiting(after.pending) == before + behind;
    assert Waiting(s.pending) == before + ticket + behind;
  }

  lemma AnswerAnswers(s: State, config: Config, k: nat, outcome: Outcome)
    requires AllAnswer(s, config) && k < |s.pending| && Answers(Settlement(s.pending[k].ticket, outcome), config, s.ids)
    ensures AllAnswer(AfterAnswer(s, k, outcome), config)
  {
    var after := AfterAnswer(s, k, outcome);
    forall i | 0 <= i < |after.settled|
      ensures Answers(after.settled[i], config, after.ids)
    {
      if i < |s.settled| {
        assert Answers(s.settled[i], config, s.ids);
      }
    }
  }

  lemma AnswerIsSound(s: State, config: Config, k: nat, frame: Bytes, outcome: Outcome)
    requires Sound(s, config) && s.closed.None? && k < |s.pending| && !outcome.Rejected? && outcome.frame == frame
    requires Answers(Settlement(s.pending[k].ticket, outcome), config, s.ids)
    ensures Sound(AfterAnswer(s.(frames := s.frames + [frame]), k, outcome), config)
  {
    var taken := s.(frames := s.frames + [frame]);
    AnswerAccounts(taken, k, outcome);
    AnswerAnswers(taken, config, k, outcome);
    UsedGrows(s.settled, Settlement(s.pending[k].ticket, outcome));
  }

  lemma FrameIsSound(s: State, config: Config, frame: Bytes)
    requires Sound(s, config) && s.closed.None?
    ensures Sound(AfterFrame(s, config, frame), config)
  {
    var reply := config.decode(frame);
    var k := if reply.Malformed? then -1 else Find(s.pending, reply.id);
    if k == -1 || (reply.Refusal? && reply.error.None?) {
      CloseIsSound(s.(frames := s.frames + [frame]), config, ProtocolInvalid, true);
    } else {
      assert Named(s.pending[k], s.ids);
      AnswerIsSound(s, config, k, frame,
                    if reply.Answer? then Resolved(frame, reply.value) else Refused(frame, reply.error.value));
    }
  }

  lemma {:induction false} LinesAreSound(s: State, config: Config, lines: seq<Bytes>)
    requires Sound(s, config)
    ensures Sound(AfterLines(s, config, lines), config)
    decreases |lines|
  {
    if lines != [] {
      if s.closed.None? {
        CloseIsSound(s, config, ProtocolInvalid, true);
        FrameIsSound(s, config, Strip(lines[0]));
      }
      LinesAreSound(AfterLine(s, config, lines[0]), config, lines[1..]);
    }
  }

  lemma DataIsSound(s: State, config: Config, chunk: Bytes)
    requires Sound(s, config)
    ensures Sound(AfterData(s, config, chunk), config)
  {
    if s.closed.None? {
      var (lines, rest) := Split(s.buffer + chunk);
      SplitJoins(s.buffer + chunk);
      DrainReadsLines(s.(buffer := s.buffer + chunk), config, lines, rest);
      LinesAreSound(s.(buffer := []), config, lines);
      CloseIsSound(AfterLines(s.(buffer := []), config, lines), config, ProtocolInvalid, true);
    }
  }

  lemma RefusalAccounts(s: State, id: string, error: Error)
    requires Accounted(s)
    ensures Accounted(AfterRefusal(s, id, error))
  {
    var after := AfterRefusal(s, id, error);
    assert Tickets(after.settled) == Tickets(s.settled) + [|s.ids|];
    assert Calls(|after.ids|) == Calls(|s.ids|) + [|s.ids|];
  }

  lemma CallKeepsNames(s: State, config: Config, id: string)
    requires PendingNamed(s.pending, s.ids) && AllAnswer(s, config)
    ensures PendingNamed(s.pending, s.ids + [id]) && AllAnswer(s.(ids := s.ids + [id]), config)
  {
    var after := s.(ids := s.ids + [id]);
    forall i | 0 <= i < |s.pending|
      ensures Named(s.pending[i], after.ids)
    {
      assert Named(s.pending[i], s.ids);
    }
    forall i | 0 <= i < |s.settled|
      ensures Answers(s.settled[i], config, after.ids)
    {
      assert Answers(s.settled[i], config, s.ids);
    }
  }

  lemma RefusalIsSound(s: State, config: Config, id: string, error: Error) returns (after: State)
    requires Sound(s, config)
    ensures after == AfterRefusal(s, id, error) && Sound(after, config)
  {
    after := AfterRefusal(s, id, error);
    RefusalAccounts(s, id, error);
    CallKeepsNames(s, config, id);
    UsedGrows(s.settled, Settlement(|s.ids|, Rejected(error)));
  }

  lemma WaitAccounts(settled: seq<Settlement>, pending: seq<Pending>, id: string, n: nat)
    requires multiset(Tickets(settled) + Waiting(pending)) == multiset(Calls(n))
    ensures multiset(Tickets(settled) + Waiting(pending + [Pending(id, n)])) == multiset(Calls(n + 1))
  {
    assert Waiting(pending + [Pending(id, n)]) == Waiting(pending) + [n];
    assert Calls(n + 1) == Calls(n) + [n];
  }

  lemma WaitNames(pending: seq<Pending>, ids: seq<string>, id: string)
    requires PendingNamed(pending, ids + [id]) && id != "" && Find(pending, id) == -1
    ensures PendingNamed(pending + [Pending(id, |ids|)], ids + [id])
  {
    FindsAll(pending, id);
  }

  lemma WaitIsSound(s: State, config: Config, id: string) returns (after: State)
    requires Sound(s, config) && s.closed.None? && id != "" && Find(s.pending, id) == -1
    ensures after == s.(ids := s.ids + [id], pending := s.pending + [Pending(id, |s.ids|)])
    ensures Sound(after, config)
  {
    after := s.(ids := s.ids + [id], pending := s.pending + [Pending(id, |s.ids|)]);
    CallKeepsNames(s, config, id);
    WaitAccounts(s.settled, s.pending, id, |s.ids|);
    WaitNames(s.pending, s.ids, id);
  }

  lemma {:induction false} FindsAll(pending: seq<Pending>, id: string)
    requires Find(pending, id) == -1
    ensures forall i :: 0 <= i < |pending| ==> pending[i].id != id
  {
    if pending != [] {
      FindsAll(pending[..|pending| - 1], id);
    }
  }

  lemma RequestIsSound(
      s: State, config: Config, timeoutValid: bool, id: string, length: Option<nat>, throws: bool)
    returns (after: State)
    requires Sound(s, config)
    ensures after == AfterRequest(s, config, timeoutValid, id, length, throws) && Sound(after, config)
  {
    if s.closed.Some? {
      after := RefusalIsSound(s, config, "", s.closed.value);
    } else if !timeoutValid {
      after := RefusalIsSound(s, config, "", ProtocolInvalid);
    } else if id == "" || Find(s.pending, id) != -1 {
      CloseIsSound(s, config, ProtocolInvalid, true);
      after := RefusalIsSound(Poison(s, ProtocolInvalid), config, id, ProtocolInvalid);
    } else if length.None? || length.value > config.maxRequest {
      after := RefusalIsSound(s, config, id, ProtocolInvalid);
    } else {
      after := WaitIsSound(s, config, id);
      if throws {
        CloseIsSound(after, config, Unavailable, true);
        after := Poison(after, Unavailable);
      }
    }
  }

  lemma StepIsSound(s: State, config: Config, e: Event)
    requires Sound(s, config)
    ensures Sound(Apply(s, config, e), config)
  {
    match e
    case Request(timeoutValid, id, length, throws) =>
      var _ := RequestIsSound(s, config, timeoutValid, id, length, throws);
    case Data(chunk) => DataIsSound(s, config, chunk);
    case _ => ClosingIsSound(s, config, e);
  }

  lemma ClosingIsSound(s: State, config: Config, e: Event)
    requires Sound(s, config) && !e.Request? && !e.Data?
    ensures Sound(Apply(s, config, e), config)
  {
    match e
    case Timer(_) => CloseIsSound(s, config, TimedOut, true);
    case WriteError => CloseIsSound(s, config, Unavailable, true);
    case StreamError => CloseIsSound(s, config, Unavailable, true);
    case StreamEnd => CloseIsSound(s, config, Unavailable, true);
    case Close(error) => CloseIsSound(s, config, error, false);
  }

  lemma {:induction false} RunIsSound(config: Config, events: seq<Event>)
    ensures Sound(Run(config, events), config)
  {
    if events == [] {
      assert Calls(0) == [];
    } else {
      RunIsSound(config, events[..|events| - 1]);
      StepIsSound(Run(config, events[..|events| - 1]), config, events[|events| - 1]);
    }
  }

  lemma {:induction false} CallsOnce(n: nat, ticket: nat)
    ensures multiset(Calls(n))[ticket] == if ticket < n then 1 else 0
  {
    if n > 0 {
      CallsOnce(n - 1, ticket);
      assert Calls(n) == Calls(n - 1) + [n - 1];
    } else {
      assert Calls(n) == [];
    }
  }

  /**
   * In every run each call is either pending or settled by exactly one
   * `resolve` or `reject`, and settled once the client is closed.
   */
  lemma SettlesExactlyOnce(config: Config, events: seq<Event>, ticket: nat)
    ensures var s := Run(config, events);
            && (ticket < |s.ids| ==> multiset(Tickets(s.settled))[ticket] + multiset(Waiting(s.pending))[ticket] == 1)
            && (ticket < |s.ids| && s.closed.Some? ==> multiset(Tickets(s.settled))[ticket] == 1)
  {
    RunIsSound(config, events);
    CallsOnce(|Run(config, events).ids|, ticket);
  }

  /** In every run a value reaches only the call whose id the frame carrying it names. */
  lemma AnswersReachTheirCall(config: Config, events: seq<Event>, i: nat)
    requires i < |Run(config, events).settled| && Run(config, events).settled[i].outcome.Resolved?
    ensures var s := Run(config, events);
            var Settlement(ticket, Resolved(frame, value)) := s.settled[i];
            ticket < |s.ids| && frame in s.frames && config.decode(frame) == Answer(s.ids[ticket], value)
  {
    RunIsSound(config, events);
    var s := Run(config, events);
    assert Answers(s.settled[i], config, s.ids);
    UsedFrames(s.settled, i);
  }

  lemma {:induction false} UsedFrames(settled: seq<Settlement>, i: nat)
    requires i < |settled| && !settled[i].outcome.Rejected?
    ensures settled[i].outcome.frame in Used(settled)
  {
    if i < |settled| - 1 {
      UsedFrames(settled[..|settled| - 1], i);
    }
  }

  /** How many calls of `request` there are. */
  function Requests(events: seq<Event>): nat {
    if events == [] then 0
    else Requests(events[..|events| - 1]) + if events[|events| - 1].Request? then 1 else 0
  }

  /** The calls numbered from `first` on are turned away. */
  function TurnedAway(first: nat, n: nat, error: Error): seq<Settlement> {
    seq(n, i requires 0 <= i < n => Settlement(first + i, Rejected(error)))
  }

  /** A client that has failed, after `n` more calls. */
  function StillClosed(s: State, n: nat): State
    requires s.closed.Some?
  {
    s.(ids := s.ids + seq(n, _ => ""), settled := s.settled + TurnedAway(|s.ids|, n, s.closed.value))
  }

  lemma ClosedStep(s: State, config: Config, e: Event)
    requires s.closed.Some?
    ensures Apply(s, config, e) == StillClosed(s, if e.Request? then 1 else 0)
  {
    assert seq(1, _ => "") == [""] && s.ids + seq(0, _ => "") == s.ids;
    assert TurnedAway(|s.ids|, 1, s.closed.value) == [Settlement(|s.ids|, Rejected(s.closed.value))];
    assert s.settled + TurnedAway(|s.ids|, 0, s.closed.value) == s.settled;
  }

  lemma StillClosedAdds(s: State, m: nat, n: nat)
    requires s.closed.Some?
    ensures StillClosed(StillClosed(s, m), n) == StillClosed(s, m + n)
  {
    var error := s.closed.value;
    assert (s.ids + seq(m, _ => "")) + seq(n, _ => "") == s.ids + seq(m + n, _ => "");
    assert (s.settled + TurnedAway(|s.ids|, m, error)) + TurnedAway(|s.ids| + m, n, error)
           == s.settled + TurnedAway(|s.ids|, m + n, error);
  }

  /**
   * Once a run has failed, whatever follows leaves everything as it was, except
   * that each new call is turned away with that same first error.
   */
  lemma {:induction false} FirstErrorSticks(config: Config, events: seq<Event>, more: seq<Event>)
    requires Run(config, events).closed.Some?
    ensures Run(config, events + more) == StillClosed(Run(config, events), Requests(more))
    decreases |more|
  {
    var (s, all) := (Run(config, events), events + more);
    if more == [] {
      assert all == events;
      assert s.ids + seq(0, _ => "") == s.ids;
      assert s.settled + TurnedAway(|s.ids|, 0, s.closed.value) == s.settled;
    } else {
      var (init, e) := (more[..|more| - 1], more[|more| - 1]);
      assert all == events + init + [e];
      FirstErrorSticks(config, events, init);
      RunAppends(config, events + init, e);
      ClosedStep(StillClosed(s, Requests(init)), config, e);
      StillClosedAdds(s, Requests(init), if e.Request? then 1 else 0);
    }
  }

  /** What a promise was settled with stays, whatever follows. */
  lemma {:induction false} SettlementsStay(config: Config, events: seq<Event>, more: seq<Event>)
    ensures Run(config, events).settled <= Run(config, events + more).settled
    ensures Run(config, events).ids <= Run(config, events + more).ids
    decreases |more|
  {
    var all := events + more;
    if more == [] {
      assert all == events;
    } else {
      var (init, e) := (more[..|more| - 1], more[|more| - 1]);
      assert all == events + init + [e];
      SettlementsStay(config, events, init);
      RunAppends(config, events + init, e);
      StepOnlyAdds(Run(config, events + init), config, e);
    }
  }

  lemma StepOnlyAdds(s: State, config: Config, e: Event)
    ensures s.settled <= Apply(s, config, e).settled && s.ids <= Apply(s, config, e).ids
  {
    if e.Data? && s.closed.None? {
      var (lines, rest) := Split(s.buffer + e.chunk);
      SplitJoins(s.buffer + e.chunk);
      DrainReadsLines(s.(buffer := s.buffer + e.chunk), config, lines, rest);
      LinesOnlyAdd(s.(buffer := []), config, lines);
    }
  }

  lemma {:induction false} LinesOnlyAdd(s: State, config: Config, lines: seq<Bytes>)
    ensures s.settled <= AfterLines(s, config, lines).settled && s.ids == AfterLines(s, config, lines).ids
    decreases |lines|
  {
    if lines != [] {
      LinesOnlyAdd(AfterLine(s, config, lines[0]), config, lines[1..]);
    }
  }
}
