/**
 * `forwardUntilBoundary` in src/computer/computer-js-runner.ts: bytes of a
 * stream are written on until a boundary text has been seen, whatever the
 * chunks they arrive in.
 */
module OutputBoundary {
  import opened Wrappers

  datatype Outcome = Undecided | Fulfilled | Rejected

  datatype Event =
    | Data(chunk: Bytes, throws: bool) // `throws`: the write this chunk causes throws
    | Written(ok: bool)                // the callback of the oldest write
    | End
    | Error

  /** `received` and `acknowledged` only record what has passed; the code keeps the other fields. */
  datatype State = State(
    tail: Bytes,
    pending: seq<Bytes>,    // buffers handed to the destination, not called back yet
    boundarySeen: bool,
    outcome: Outcome,
    received: Bytes,        // data taken in before the boundary was seen
    written: Bytes,
    acknowledged: Bytes)
  {
    predicate Settled() { !outcome.Undecided? }
  }

  const INITIAL := State([], [], false, Undecided, [], [], [])

  // ---------------------------------------------------------------- searching

  predicate At(data: Bytes, boundary: Bytes, i: nat) {
    i + |boundary| <= |data| && data[i..i + |boundary|] == boundary
  }

  /** `data.indexOf(boundary)`, from `i` on. */
  function IndexFrom(data: Bytes, boundary: Bytes, i: nat): (r: int)
    ensures r == -1 || (i <= r && r + |boundary| <= |data|)
    decreases |data| - i
  {
    if At(data, boundary, i) then i
    else if i >= |data| then -1
    else IndexFrom(data, boundary, i + 1)
  }

  function IndexOf(data: Bytes, boundary: Bytes): int {
    IndexFrom(data, boundary, 0)
  }

  lemma {:induction false} IndexFromIsFirst(data: Bytes, boundary: Bytes, i: nat, k: nat)
    requires boundary != []
    ensures var r := IndexFrom(data, boundary, i);
            && (r != -1 ==> At(data, boundary, r))
            && (i <= k && At(data, boundary, k) ==> r != -1 && r <= k)
    decreases |data| - i
  {
    if !At(data, boundary, i) && i < |data| {
      IndexFromIsFirst(data, boundary, i + 1, k);
    }
  }

  /** How many bytes may still be the beginning of a boundary. */
  function Keep(boundary: Bytes, length: nat): nat
    requires boundary != []
  {
    if |boundary| - 1 < length then |boundary| - 1 else length
  }

  // ---------------------------------------------------------------- handlers

  function AfterFail(s: State): State {
    if s.Settled() then s else s.(outcome := Rejected)
  }

  function AfterResolve(s: State): State {
    if s.Settled() || !s.boundarySeen || s.pending != [] then s else s.(outcome := Fulfilled)
  }

  function AfterWrite(s: State, buffer: Bytes, throws: bool): State {
    if buffer == [] || s.Settled() then s
    else if throws then AfterFail(s)
    else s.(pending := s.pending + [buffer], written := s.written + buffer)
  }

  function AfterData(s: State, boundary: Bytes, chunk: Bytes, throws: bool): State
    requires boundary != []
  {
    if s.Settled() || s.boundarySeen then s
    else
      var data := s.tail + chunk;
      var taken := s.(received := s.received + chunk);
      var at := IndexOf(data, boundary);
      if at >= 0 then
        var seen := AfterWrite(taken, data[..at], throws).(tail := [], boundarySeen := true);
        if data[at + |boundary|..] != [] then AfterFail(seen) else AfterResolve(seen)
      else
        var split := |data| - Keep(boundary, |data|);
        AfterWrite(taken, data[..split], throws).(tail := data[split..])
  }

  function AfterWritten(s: State, ok: bool): State
    requires s.pending != []
  {
    var called := s.(pending := s.pending[1..]);
    if ok then AfterResolve(called.(acknowledged := s.acknowledged + s.pending[0])) else AfterFail(called)
  }

  function AfterEnd(s: State): State {
    if s.boundarySeen then s else AfterFail(s)
  }

  predicate Enabled(s: State, e: Event) {
    e.Written? ==> s.pending != []
  }

  function Apply(s: State, boundary: Bytes, e: Event): State
    requires boundary != [] && Enabled(s, e)
  {
    match e
    case Data(chunk, throws) => AfterData(s, boundary, chunk, throws)
    case Written(ok) => AfterWritten(s, ok)
    case End => AfterEnd(s)
    case Error => AfterFail(s)
  }

  // ---------------------------------------------------------------- the closure's mutable state

  class Forwarder {
    const boundary: Bytes
    var tail: Bytes
    var pending: seq<Bytes>
    var boundarySeen: bool
    var outcome: Outcome
    ghost var received: Bytes
    ghost var written: Bytes
    ghost var acknowledged: Bytes

    ghost function Snapshot(): State
      reads this
    {
      State(tail, pending, boundarySeen, outcome, received, written, acknowledged)
    }

    constructor (boundary: Bytes)
      requires boundary != []
      ensures this.boundary == boundary && Snapshot() == INITIAL
    {
      this.boundary := boundary;
      tail, pending, boundarySeen, outcome := [], [], false, Undecided;
      received, written, acknowledged := [], [], [];
    }

    method Fail()
      modifies this
      ensures Snapshot() == AfterFail(old(Snapshot()))
    {
      if outcome.Undecided? {
        outcome := Rejected;
      }
    }

    method MaybeResolve()
      modifies this
      ensures Snapshot() == AfterResolve(old(Snapshot()))
    {
      if outcome.Undecided? && boundarySeen && pending == [] {
        outcome := Fulfilled;
      }
    }

    method Write(buffer: Bytes, throws: bool)
      modifies this
      ensures Snapshot() == AfterWrite(old(Snapshot()), buffer, throws)
    {
      if buffer == [] || !outcome.Undecided? {
        return;
      }
      if throws {
        Fail();
      } else {
        pending := pending + [buffer];
        written := written + buffer;
      }
    }

    method OnData(chunk: Bytes, throws: bool)
      requires boundary != []
      modifies this
      ensures Snapshot() == AfterData(old(Snapshot()), boundary, chunk, throws)
    {
      if !outcome.Undecided? || boundarySeen {
        return;
      }
      received := received + chunk;
      var data := tail + chunk;
      var at := IndexOf(data, boundary);
      if at >= 0 {
        Write(data[..at], throws);
        var trailing := data[at + |boundary|..];
        tail := [];
        boundarySeen := true;
        if trailing != [] {
          Fail();
          return;
        }
        MaybeResolve();
        return;
      }
      var split := |data| - Keep(boundary, |data|);
      Write(data[..split], throws);
      tail := data[split..];
    }

    method OnWritten(ok: bool)
      requires pending != []
      modifies this
      ensures Snapshot() == AfterWritten(old(Snapshot()), ok)
    {
      var buffer := pending[0];
      pending := pending[1..];
      if ok {
        acknowledged := acknowledged + buffer;
        MaybeResolve();
      } else {
        Fail();
      }
    }

    method OnEnd()
      modifies this
      ensures Snapshot() == AfterEnd(old(Snapshot()))
    {
      if !boundarySeen {
        Fail();
      }
    }
  }

  // ---------------------------------------------------------------- one search over the whole stream

  /** How much of `data` may go on. */
  function Cut(data: Bytes, boundary: Bytes): (end: nat)
    requires boundary != []
    ensures end <= |data|
  {
    var at := IndexOf(data, boundary);
    if at >= 0 then at else |data| - Keep(boundary, |data|)
  }

  /** What of `stream` may be written on: everything before the first boundary, or all that cannot be its beginning. */
  function Forwardable(stream: Bytes, boundary: Bytes): Bytes
    requires boundary != []
  {
    stream[..Cut(stream, boundary)]
  }

  /** Where a boundary stands does not depend on bytes dropped before it or added after it. */
  lemma AtShift(boundary: Bytes, stream: Bytes, part: Bytes, from: nat, i: nat)
    requires from + |part| <= |stream| && part == stream[from..from + |part|]
    requires i + |boundary| <= |part|
    ensures At(stream, boundary, from + i) <==> At(part, boundary, i)
  {
    var (here, there) := (part[i..i + |boundary|], stream[from + i..from + i + |boundary|]);
    forall k | 0 <= k < |boundary|
      ensures here[k] == there[k]
    {
      assert here[k] == part[i + k] == stream[from..from + |part|][i + k];
    }
    assert here == there;
  }

  /** A boundary that ends in the new chunk starts in the kept tail. */
  lemma AtTail(boundary: Bytes, before: Bytes, chunk: Bytes, i: nat)
    requires boundary != [] && IndexOf(before, boundary) == -1
    ensures var kept := |before| - Keep(boundary, |before|);
            At(before + chunk, boundary, i) <==> i >= kept && At(before[kept..] + chunk, boundary, i - kept)
  {
    var kept := |before| - Keep(boundary, |before|);
    var stream := before + chunk;
    var data := before[kept..] + chunk;
    assert stream[kept..|stream|] == data;
    if i >= kept && i + |boundary| <= |stream| {
      AtShift(boundary, stream, data, kept, i - kept);
    } else if i + |boundary| <= |before| {
      assert stream[0..|before|] == before;
      AtShift(boundary, stream, before, 0, i);
      IndexFromIsFirst(before, boundary, 0, i);
    }
  }

  /** Searching the kept tail and the next chunk finds what a search of the whole stream would. */
  lemma TailSearch(boundary: Bytes, before: Bytes, chunk: Bytes)
    requires boundary != [] && IndexOf(before, boundary) == -1
    ensures var kept := |before| - Keep(boundary, |before|);
            var at := IndexOf(before[kept..] + chunk, boundary);
            IndexOf(before + chunk, boundary) == if at == -1 then -1 else kept + at
  {
    var data := before[|before| - Keep(boundary, |before|)..] + chunk;
    var (at, found) := (IndexOf(data, boundary), IndexOf(before + chunk, boundary));
    if at >= 0 {
      IndexFromIsFirst(data, boundary, 0, at);
      StreamFinds(boundary, before, chunk, data, at);
    }
    if found >= 0 {
      IndexFromIsFirst(before + chunk, boundary, 0, found);
      TailFinds(boundary, before, chunk, data, found);
    }
  }

  lemma StreamFinds(boundary: Bytes, before: Bytes, chunk: Bytes, data: Bytes, at: nat)
    requires boundary != [] && IndexOf(before, boundary) == -1
    requires data == before[|before| - Keep(boundary, |before|)..] + chunk && At(data, boundary, at)
    ensures 0 <= IndexOf(before + chunk, boundary) <= |before| - Keep(boundary, |before|) + at
  {
    var i := |before| - Keep(boundary, |before|) + at;
    AtTail(boundary, before, chunk, i);
    IndexFromIsFirst(before + chunk, boundary, 0, i);
  }

  lemma TailFinds(boundary: Bytes, before: Bytes, chunk: Bytes, data: Bytes, found: nat)
    requires boundary != [] && IndexOf(before, boundary) == -1
    requires data == before[|before| - Keep(boundary, |before|)..] + chunk && At(before + chunk, boundary, found)
    ensures 0 <= IndexOf(data, boundary) <= found - (|before| - Keep(boundary, |before|))
  {
    AtTail(boundary, before, chunk, found);
    IndexFromIsFirst(data, boundary, 0, found - (|before| - Keep(boundary, |before|)));
  }

  /** More data cannot move the first boundary. */
  lemma FirstStays(boundary: Bytes, stream: Bytes, more: Bytes)
    requires boundary != [] && IndexOf(stream, boundary) >= 0
    ensures IndexOf(stream + more, boundary) == IndexOf(stream, boundary)
  {
    var (all, at) := (stream + more, IndexOf(stream, boundary));
    assert all[0..|stream|] == stream;
    IndexFromIsFirst(stream, boundary, 0, at);
    AtShift(boundary, all, stream, 0, at);
    IndexFromIsFirst(all, boundary, 0, at);
    var found := IndexOf(all, boundary);
    AtShift(boundary, all, stream, 0, found);
    IndexFromIsFirst(stream, boundary, 0, found);
  }

  // ---------------------------------------------------------------- every run

  function Flatten(buffers: seq<Bytes>): Bytes {
    if buffers == [] then [] else buffers[0] + Flatten(buffers[1..])
  }

  lemma {:induction false} FlattenAppend(buffers: seq<Bytes>, last: Bytes)
    ensures Flatten(buffers + [last]) == Flatten(buffers) + last
  {
    if buffers == [] {
      assert buffers + [last] == [last];
    } else {
      FlattenAppend(buffers[1..], last);
      assert (buffers + [last])[1..] == buffers[1..] + [last];
    }
  }

  /**
   * In every reachable state: what is written is a prefix of the forwardable
   * bytes, and all of them, acknowledged or pending, unless the promise was
   * rejected.
   */
  ghost predicate Inv(s: State, boundary: Bytes)
    requires boundary != []
  {
    && (s.boundarySeen <==> IndexOf(s.received, boundary) >= 0)
    && (!s.boundarySeen ==> s.tail == s.received[|s.received| - Keep(boundary, |s.received|)..])
    && s.written <= Forwardable(s.received, boundary)
    && (!s.outcome.Rejected? ==> s.written == Forwardable(s.received, boundary))
    && (!s.outcome.Rejected? ==> s.acknowledged + Flatten(s.pending) == s.written)
    && (s.outcome.Fulfilled? ==> s.boundarySeen && s.pending == [])
    && (s.boundarySeen && !s.outcome.Rejected? ==> s.received == Forwardable(s.received, boundary) + boundary)
  }

  lemma CutStream(boundary: Bytes, before: Bytes, chunk: Bytes)
    requires boundary != [] && IndexOf(before, boundary) == -1
    ensures var kept := |before| - Keep(boundary, |before|);
            var end := Cut(before[kept..] + chunk, boundary);
            Cut(before + chunk, boundary) == kept + end && Cut(before, boundary) == kept
  {
    TailSearch(boundary, before, chunk);
  }

  lemma CutBytes(before: Bytes, chunk: Bytes, kept: nat, end: nat)
    requires kept <= |before| && end <= |before[kept..] + chunk|
    ensures (before + chunk)[..kept + end] == before[..kept] + (before[kept..] + chunk)[..end]
    ensures (before + chunk)[kept + end..] == (before[kept..] + chunk)[end..]
  {
  }

  /** What a chunk adds to the forwardable bytes, and what it leaves as the tail. */
  lemma ForwardableGrows(boundary: Bytes, before: Bytes, chunk: Bytes)
    requires boundary != [] && IndexOf(before, boundary) == -1
    ensures var data := before[|before| - Keep(boundary, |before|)..] + chunk;
            var stream := before + chunk;
            var end := Cut(data, boundary);
            && Forwardable(stream, boundary) == Forwardable(before, boundary) + data[..end]
            && (IndexOf(stream, boundary) >= 0 <==> IndexOf(data, boundary) >= 0)
            && data[end..] == stream[Cut(stream, boundary)..]
  {
    CutStream(boundary, before, chunk);
    TailSearch(boundary, before, chunk);
    var kept := |before| - Keep(boundary, |before|);
    CutBytes(before, chunk, kept, Cut(before[kept..] + chunk, boundary));
  }

  lemma BoundaryFollows(data: Bytes, boundary: Bytes)
    requires boundary != [] && IndexOf(data, boundary) >= 0
    ensures var at := IndexOf(data, boundary); data == data[..at] + boundary + data[at + |boundary|..]
  {
    IndexFromIsFirst(data, boundary, 0, 0);
  }

  lemma WriteEffect(s: State, buffer: Bytes, throws: bool)
    requires s.acknowledged + Flatten(s.pending) == s.written
    ensures var s' := AfterWrite(s, buffer, throws);
            && s' == s.(pending := s'.pending, written := s'.written, outcome := s'.outcome)
            && (s'.written == s.written || s'.written == s.written + buffer)
            && (s'.outcome == s.outcome || s'.outcome.Rejected?)
            && (!s'.Settled() ==>
                  s'.written == s.written + buffer && s'.acknowledged + Flatten(s'.pending) == s'.written)
  {
    FlattenAppend(s.pending, buffer);
    assert buffer == [] ==> s.written + buffer == s.written;
    assert s.acknowledged + (Flatten(s.pending) + buffer) == s.written + buffer;
  }

  /** Bytes after the boundary show in the chunk that completes it. */
  lemma TrailingBytes(boundary: Bytes, before: Bytes, chunk: Bytes)
    requires boundary != [] && IndexOf(before, boundary) == -1
    requires IndexOf(before[|before| - Keep(boundary, |before|)..] + chunk, boundary) >= 0
    ensures var data := before[|before| - Keep(boundary, |before|)..] + chunk;
            before + chunk == Forwardable(before + chunk, boundary) + boundary
                + data[IndexOf(data, boundary) + |boundary|..]
  {
    var kept := |before| - Keep(boundary, |before|);
    var data := before[kept..] + chunk;
    var at := IndexOf(data, boundary);
    assert Forwardable(before + chunk, boundary) == before[..kept] + data[..at] by {
      CutStream(boundary, before, chunk);
      CutBytes(before, chunk, kept, at);
    }
    assert data == data[..at] + boundary + data[at + |boundary|..] by {
      BoundaryFollows(data, boundary);
    }
    Regroup(before, chunk, before[..kept], before[kept..], data[..at], boundary, data[at + |boundary|..]);
  }

  lemma Regroup(before: Bytes, chunk: Bytes, a: Bytes, b: Bytes, x: Bytes, y: Bytes, z: Bytes)
    requires before == a + b && b + chunk == x + y + z
    ensures before + chunk == (a + x) + y + z
  {
    assert before + chunk == a + (b + chunk);
    assert a + (x + y + z) == (a + x) + y + z;
  }

  lemma MissKeeps(s: State, boundary: Bytes, chunk: Bytes, throws: bool)
    requires boundary != [] && Inv(s, boundary) && !s.Settled() && !s.boundarySeen
    requires IndexOf(s.tail + chunk, boundary) < 0
    ensures Inv(AfterData(s, boundary, chunk, throws), boundary)
  {
    ForwardableGrows(boundary, s.received, chunk);
    var (data, stream) := (s.tail + chunk, s.received + chunk);
    var end := Cut(data, boundary);
    WriteEffect(s.(received := stream), data[..end], throws);
    assert AfterData(s, boundary, chunk, throws)
           == AfterWrite(s.(received := stream), data[..end], throws).(tail := data[end..]);
    assert stream[|stream| - Keep(boundary, |stream|)..] == data[end..];
  }

  lemma HitKeeps(s: State, boundary: Bytes, chunk: Bytes, throws: bool)
    requires boundary != [] && Inv(s, boundary) && !s.Settled() && !s.boundarySeen
    requires IndexOf(s.tail + chunk, boundary) >= 0
    ensures Inv(AfterData(s, boundary, chunk, throws), boundary)
  {
    ForwardableGrows(boundary, s.received, chunk);
    TrailingBytes(boundary, s.received, chunk);
    var data := s.tail + chunk;
    WriteEffect(s.(received := s.received + chunk), data[..Cut(data, boundary)], throws);
  }

  lemma DataKeeps(s: State, boundary: Bytes, chunk: Bytes, throws: bool)
    requires boundary != [] && Inv(s, boundary)
    ensures Inv(AfterData(s, boundary, chunk, throws), boundary)
  {
    if !s.Settled() && !s.boundarySeen {
      if IndexOf(s.tail + chunk, boundary) >= 0 {
        HitKeeps(s, boundary, chunk, throws);
      } else {
        MissKeeps(s, boundary, chunk, throws);
      }
    }
  }

  lemma WrittenKeeps(s: State, boundary: Bytes, ok: bool)
    requires boundary != [] && Inv(s, boundary) && s.pending != []
    ensures Inv(AfterWritten(s, ok), boundary)
  {
    assert s.acknowledged + Flatten(s.pending) == s.acknowledged + s.pending[0] + Flatten(s.pending[1..]);
  }

  lemma ApplyKeeps(s: State, boundary: Bytes, e: Event)
    requires boundary != [] && Inv(s, boundary) && Enabled(s, e)
    ensures Inv(Apply(s, boundary, e), boundary)
  {
    match e
    case Data(chunk, throws) => DataKeeps(s, boundary, chunk, throws);
    case Written(ok) => WrittenKeeps(s, boundary, ok);
    case End =>
    case Error =>
  }

  function Run(s: State, boundary: Bytes, events: seq<Event>): Option<State>
    requires boundary != []
    decreases events
  {
    if events == [] then Some(s)
    else if Enabled(s, events[0]) then Run(Apply(s, boundary, events[0]), boundary, events[1..])
    else None
  }

  lemma {:induction false} RunKeeps(s: State, boundary: Bytes, events: seq<Event>)
    requires boundary != [] && Inv(s, boundary)
    ensures Run(s, boundary, events).Some? ==> Inv(Run(s, boundary, events).value, boundary)
    decreases events
  {
    if events != [] && Enabled(s, events[0]) {
      ApplyKeeps(s, boundary, events[0]);
      RunKeeps(Apply(s, boundary, events[0]), boundary, events[1..]);
    }
  }

  lemma InitialInv(s: State, boundary: Bytes)
    requires boundary != [] && s == INITIAL
    ensures Inv(s, boundary)
  {
    var received := s.received;
    assert |received| == 0 && !At(received, boundary, 0);
    assert IndexOf(received, boundary) == -1;
    assert s.acknowledged + Flatten(s.pending) == s.written;
  }

  /** All data of the events, in order. */
  function Stream(events: seq<Event>): Bytes {
    if events == [] then []
    else Stream(events[..|events| - 1]) + (if events[|events| - 1].Data? then events[|events| - 1].chunk else [])
  }

  lemma StreamSnoc(past: seq<Event>, e: Event)
    ensures Stream(past + [e]) == Stream(past) + (if e.Data? then e.chunk else [])
  {
    assert (past + [e])[..|past|] == past;
  }

  /** What was taken in is all data so far, or a prefix of it once data is ignored. */
  predicate Taken(s: State, past: seq<Event>) {
    s.received <= Stream(past) && (!s.Settled() && !s.boundarySeen ==> s.received == Stream(past))
  }

  lemma {:induction false} RunTakes(s: State, boundary: Bytes, past: seq<Event>, events: seq<Event>)
    requires boundary != [] && Taken(s, past) && Run(s, boundary, events).Some?
    ensures Taken(Run(s, boundary, events).value, past + events)
    decreases events
  {
    if events == [] {
      assert past + events == past;
    } else {
      StreamSnoc(past, events[0]);
      RunTakes(Apply(s, boundary, events[0]), boundary, past + [events[0]], events[1..]);
      assert past + [events[0]] + events[1..] == past + events;
    }
  }

  /** A longer stream only adds to what may go on. */
  lemma ForwardableMonotone(boundary: Bytes, prefix: Bytes, stream: Bytes)
    requires boundary != [] && prefix <= stream
    ensures Forwardable(prefix, boundary) <= Forwardable(stream, boundary)
  {
    var more := stream[|prefix|..];
    assert stream == prefix + more;
    if IndexOf(prefix, boundary) >= 0 {
      FirstStays(boundary, prefix, more);
    } else {
      ForwardableGrows(boundary, prefix, more);
    }
  }

  /**
   * After any events, errors included: nothing at or past the first boundary
   * of the stream has been written, and a fulfilled promise means that exactly
   * the bytes before it were acknowledged.
   */
  lemma ForwardsUpToBoundary(start: State, boundary: Bytes, events: seq<Event>)
    requires boundary != [] && start == INITIAL && Run(start, boundary, events).Some?
    ensures var s := Run(start, boundary, events).value;
            && s.received <= Stream(events)
            && s.written <= Forwardable(Stream(events), boundary)
            && (s.outcome.Fulfilled? ==>
                  s.acknowledged + boundary <= Stream(events) && IndexOf(Stream(events), boundary) == |s.acknowledged|)
  {
    InitialInv(start, boundary);
    RunKeeps(start, boundary, events);
    RunTakes(start, boundary, [], events);
    assert [] + events == events;
    var s := Run(start, boundary, events).value;
    ForwardableMonotone(boundary, s.received, Stream(events));
    if s.outcome.Fulfilled? {
      FulfilledMeans(s, boundary);
      PrefixDecides(boundary, s.received, Stream(events));
    }
  }

  lemma FulfilledMeans(s: State, boundary: Bytes)
    requires boundary != [] && Inv(s, boundary) && s.outcome.Fulfilled?
    ensures s.received == s.acknowledged + boundary && IndexOf(s.received, boundary) == |s.acknowledged|
  {
    assert s.acknowledged + [] == s.acknowledged;
  }

  // ---------------------------------------------------------------- runs without errors

  predicate ErrorFree(e: Event) {
    match e
    case Data(_, throws) => !throws
    case Written(ok) => ok
    case End => true
    case Error => false
  }

  /** Nothing fails, and no data comes after the end of the stream. */
  predicate ErrorFreeRun(events: seq<Event>) {
    && (forall i :: 0 <= i < |events| ==> ErrorFree(events[i]))
    && (forall i, j :: 0 <= i < j < |events| && events[i].End? ==> !events[j].Data?)
  }

  /** Some chunk ends exactly `n` bytes into the stream. */
  ghost predicate ChunkEndsAt(events: seq<Event>, n: nat) {
    exists k :: 0 <= k <= |events| && |Stream(events[..k])| == n
  }

  /** The state after error-free events. */
  ghost predicate Clean(s: State, boundary: Bytes, past: seq<Event>)
    requires boundary != []
  {
    && Inv(s, boundary)
    && s.written == Forwardable(s.received, boundary)
    && s.acknowledged + Flatten(s.pending) == s.written
    && s.received <= Stream(past)
    && Decided(s, boundary, past)
  }

  /** The verdict turns on what came after the boundary in the chunk that completed it. */
  ghost predicate Decided(s: State, boundary: Bytes, past: seq<Event>)
    requires boundary != []
  {
    if !s.boundarySeen then s.received == Stream(past) && s.outcome == if End in past then Rejected else Undecided
    else
      var end := IndexOf(s.received, boundary) + |boundary|;
      && (|s.received| == end <==> ChunkEndsAt(past, end))
      && (|s.received| > end <==> s.outcome.Rejected?)
      && (|s.received| == end ==> (s.outcome.Fulfilled? <==> s.pending == []))
  }

  lemma {:induction false} StreamGrows(events: seq<Event>, k: nat)
    requires k <= |events|
    ensures Stream(events[..k]) <= Stream(events)
    decreases |events|
  {
    if k < |events| {
      var init := events[..|events| - 1];
      StreamGrows(init, k);
      assert init[..k] == events[..k];
    } else {
      assert events[..k] == events;
    }
  }

  /** One more event adds one more place where a chunk may end. */
  lemma ChunkEndsStep(past: seq<Event>, e: Event, n: nat)
    ensures ChunkEndsAt(past + [e], n) <==> ChunkEndsAt(past, n) || |Stream(past + [e])| == n
  {
    var all := past + [e];
    forall k | 0 <= k <= |past|
      ensures all[..k] == past[..k]
    {
    }
    assert all[..|all|] == all;
  }

  lemma CleanMiss(s: State, boundary: Bytes, past: seq<Event>, chunk: Bytes)
    requires boundary != [] && Clean(s, boundary, past) && !s.boundarySeen && IndexOf(s.tail + chunk, boundary) < 0
    requires End !in past
    ensures Clean(AfterData(s, boundary, chunk, false), boundary, past + [Data(chunk, false)])
  {
    StreamSnoc(past, Data(chunk, false));
    MissKeeps(s, boundary, chunk, false);
    ForwardableGrows(boundary, s.received, chunk);
    WriteEffect(s.(received := s.received + chunk), (s.tail + chunk)[..Cut(s.tail + chunk, boundary)], false);
  }

  lemma HitWrites(s: State, boundary: Bytes, chunk: Bytes)
    requires boundary != [] && Inv(s, boundary) && !s.Settled() && !s.boundarySeen
    requires IndexOf(s.tail + chunk, boundary) >= 0
    ensures var s' := AfterData(s, boundary, chunk, false);
            && s'.written == Forwardable(s'.received, boundary)
            && s'.acknowledged + Flatten(s'.pending) == s'.written
  {
    ForwardableGrows(boundary, s.received, chunk);
    var data := s.tail + chunk;
    WriteEffect(s.(received := s.received + chunk), data[..Cut(data, boundary)], false);
  }

  /** The verdict of the chunk that completes the boundary. */
  lemma HitOutcome(s: State, boundary: Bytes, chunk: Bytes)
    requires boundary != [] && !s.Settled() && !s.boundarySeen && IndexOf(s.tail + chunk, boundary) >= 0
    ensures var data := s.tail + chunk;
            var s' := AfterData(s, boundary, chunk, false);
            && s'.boundarySeen && s'.received == s.received + chunk
            && (s'.outcome.Rejected? <==> |data[IndexOf(data, boundary) + |boundary|..]| > 0)
            && (!s'.outcome.Rejected? ==> (s'.outcome.Fulfilled? <==> s'.pending == []))
  {
  }

  lemma HitDecides(s: State, boundary: Bytes, past: seq<Event>, chunk: Bytes, after: State)
    requires boundary != [] && Inv(s, boundary) && !s.Settled() && !s.boundarySeen && s.received == Stream(past)
    requires IndexOf(s.tail + chunk, boundary) >= 0 && after == AfterData(s, boundary, chunk, false)
    ensures Decided(after, boundary, past + [Data(chunk, false)])
  {
    HitOutcome(s, boundary, chunk);
    var (e, stream) := (Data(chunk, false), s.received + chunk);
    var end := IndexOf(stream, boundary) + |boundary|;
    assert IndexOf(stream, boundary) >= 0 by {
      TailSearch(boundary, s.received, chunk);
    }
    assert |stream| == end <==> ChunkEndsAt(past + [e], end) by {
      HitEnds(boundary, past, e, s.received);
    }
    assert |stream| > end <==> after.outcome.Rejected? by {
      HitLength(boundary, s.received, chunk);
    }
    assert |stream| >= end by {
      HitLength(boundary, s.received, chunk);
    }
  }

  lemma HitLength(boundary: Bytes, before: Bytes, chunk: Bytes)
    requires boundary != [] && IndexOf(before, boundary) == -1
    requires IndexOf(before[|before| - Keep(boundary, |before|)..] + chunk, boundary) >= 0
    ensures var data := before[|before| - Keep(boundary, |before|)..] + chunk;
            |before + chunk| == IndexOf(before + chunk, boundary) + |boundary|
                + |data[IndexOf(data, boundary) + |boundary|..]|
  {
    TailSearch(boundary, before, chunk);
  }

  lemma CleanHit(s: State, boundary: Bytes, past: seq<Event>, chunk: Bytes)
    requires boundary != [] && Clean(s, boundary, past) && !s.boundarySeen && IndexOf(s.tail + chunk, boundary) >= 0
    requires End !in past
    ensures Clean(AfterData(s, boundary, chunk, false), boundary, past + [Data(chunk, false)])
  {
    var after := AfterData(s, boundary, chunk, false);
    assert after.received == Stream(past + [Data(chunk, false)]) by {
      StreamSnoc(past, Data(chunk, false));
      HitOutcome(s, boundary, chunk);
    }
    assert Inv(after, boundary) by {
      HitKeeps(s, boundary, chunk, false);
    }
    assert after.written == Forwardable(after.received, boundary)
           && after.acknowledged + Flatten(after.pending) == after.written by {
      HitWrites(s, boundary, chunk);
    }
    HitDecides(s, boundary, past, chunk, after);
  }

  /** The chunk that completes the boundary is the first that can end where the boundary ends. */
  lemma HitEnds(boundary: Bytes, past: seq<Event>, e: Event, before: Bytes)
    requires boundary != [] && e.Data? && before == Stream(past)
    requires IndexOf(before, boundary) == -1 && IndexOf(before + e.chunk, boundary) >= 0
    ensures var end := IndexOf(before + e.chunk, boundary) + |boundary|;
            |before + e.chunk| == end <==> ChunkEndsAt(past + [e], end)
  {
    var end := IndexOf(before + e.chunk, boundary) + |boundary|;
    StreamSnoc(past, e);
    ChunkEndsStep(past, e, end);
    EndsLate(boundary, before, e.chunk);
    if ChunkEndsAt(past, end) {
      var k :| 0 <= k <= |past| && |Stream(past[..k])| == end;
      StreamGrows(past, k);
    }
  }

  /** The first boundary of a longer stream ends in the added bytes. */
  lemma EndsLate(boundary: Bytes, before: Bytes, chunk: Bytes)
    requires boundary != [] && IndexOf(before, boundary) == -1 && IndexOf(before + chunk, boundary) >= 0
    ensures IndexOf(before + chunk, boundary) + |boundary| > |before|
  {
    var (stream, i) := (before + chunk, IndexOf(before + chunk, boundary));
    IndexFromIsFirst(stream, boundary, 0, i);
    if i + |boundary| <= |before| {
      assert stream[0..|before|] == before;
      AtShift(boundary, stream, before, 0, i);
      IndexFromIsFirst(before, boundary, 0, i);
    }
  }

  /** After the boundary, data and the end of the stream no longer matter. */
  lemma CleanIgnores(s: State, boundary: Bytes, past: seq<Event>, e: Event)
    requires boundary != [] && Clean(s, boundary, past) && s.boundarySeen && (e.Data? || e.End?)
    ensures Clean(s, boundary, past + [e])
  {
    StreamSnoc(past, e);
    var end := IndexOf(s.received, boundary) + |boundary|;
    ChunkEndsStep(past, e, end);
    if |Stream(past + [e])| == end {
      EndsInReceived(s, boundary, past, e);
    }
  }

  lemma EndsInReceived(s: State, boundary: Bytes, past: seq<Event>, e: Event)
    requires boundary != [] && Clean(s, boundary, past) && s.boundarySeen
    requires |Stream(past + [e])| == IndexOf(s.received, boundary) + |boundary| && Stream(past) <= Stream(past + [e])
    ensures ChunkEndsAt(past, IndexOf(s.received, boundary) + |boundary|)
  {
    IndexFromIsFirst(s.received, boundary, 0, 0);
    assert past[..|past|] == past;
  }

  /** The stream ends before any boundary. */
  lemma CleanEnd(s: State, boundary: Bytes, past: seq<Event>)
    requires boundary != [] && Clean(s, boundary, past) && !s.boundarySeen
    ensures Clean(AfterEnd(s), boundary, past + [End])
  {
    StreamSnoc(past, End);
  }

  lemma CleanWritten(s: State, boundary: Bytes, past: seq<Event>)
    requires boundary != [] && Clean(s, boundary, past) && s.pending != []
    ensures Clean(AfterWritten(s, true), boundary, past + [Written(true)])
  {
    var e := Written(true);
    StreamSnoc(past, e);
    WrittenKeeps(s, boundary, true);
    assert s.acknowledged + Flatten(s.pending) == s.acknowledged + s.pending[0] + Flatten(s.pending[1..]);
    if s.boundarySeen {
      var end := IndexOf(s.received, boundary) + |boundary|;
      ChunkEndsStep(past, e, end);
      StreamGrows(past, |past|);
      assert past[..|past|] == past;
    }
  }

  lemma CleanApply(s: State, boundary: Bytes, past: seq<Event>, e: Event) returns (next: State)
    requires boundary != [] && Clean(s, boundary, past) && Enabled(s, e) && ErrorFree(e)
    requires e.Data? ==> End !in past
    ensures next == Apply(s, boundary, e) && Clean(next, boundary, past + [e])
  {
    next := Apply(s, boundary, e);
    if e.Written? {
      CleanWritten(s, boundary, past);
    } else if s.boundarySeen {
      CleanIgnores(s, boundary, past, e);
    } else if e.End? {
      CleanEnd(s, boundary, past);
    } else if IndexOf(s.tail + e.chunk, boundary) >= 0 {
      CleanHit(s, boundary, past, e.chunk);
    } else {
      CleanMiss(s, boundary, past, e.chunk);
    }
  }

  lemma {:induction false} CleanRun(s: State, boundary: Bytes, past: seq<Event>, events: seq<Event>)
    requires boundary != [] && Clean(s, boundary, past)
    requires Run(s, boundary, events).Some? && ErrorFreeRun(past + events)
    ensures Clean(Run(s, boundary, events).value, boundary, past + events)
    decreases events
  {
    if events == [] {
      assert past + events == past;
    } else {
      assert past + [events[0]] + events[1..] == past + events;
      NextIsErrorFree(past, events);
      var next := CleanApply(s, boundary, past, events[0]);
      CleanRun(next, boundary, past + [events[0]], events[1..]);
    }
  }

  lemma NextIsErrorFree(past: seq<Event>, events: seq<Event>)
    requires events != [] && ErrorFreeRun(past + events)
    ensures ErrorFree(events[0]) && (events[0].Data? ==> End !in past)
  {
    var all := past + events;
    assert all[|past|] == events[0];
    assert forall i :: 0 <= i < |past| ==> all[i] == past[i];
  }

  /** A prefix that holds the first boundary decides what may be forwarded. */
  lemma PrefixDecides(boundary: Bytes, prefix: Bytes, stream: Bytes)
    requires boundary != [] && prefix <= stream && IndexOf(prefix, boundary) >= 0
    ensures IndexOf(stream, boundary) == IndexOf(prefix, boundary)
    ensures Forwardable(stream, boundary) == Forwardable(prefix, boundary)
  {
    var more := stream[|prefix|..];
    assert stream == prefix + more;
    FirstStays(boundary, prefix, more);
  }

  /** Without errors, what is written depends on the stream alone, not on how it was cut into chunks. */
  lemma WrittenIgnoresChunks(start: State, boundary: Bytes, events: seq<Event>)
    requires boundary != [] && start == INITIAL && Run(start, boundary, events).Some?
    requires ErrorFreeRun(events)
    ensures Run(start, boundary, events).value.written == Forwardable(Stream(events), boundary)
  {
    var s := CleanResult(start, boundary, events);
    if s.boundarySeen {
      PrefixDecides(boundary, s.received, Stream(events));
    }
  }

  lemma CleanResult(start: State, boundary: Bytes, events: seq<Event>) returns (s: State)
    requires boundary != [] && start == INITIAL && Run(start, boundary, events).Some?
    requires ErrorFreeRun(events)
    ensures s == Run(start, boundary, events).value && Clean(s, boundary, events)
  {
    InitialInv(start, boundary);
    assert Forwardable(start.received, boundary) == [];
    CleanRun(start, boundary, [], events);
    assert [] + events == events;
    s := Run(start, boundary, events).value;
  }

  /** What a state that has seen the boundary says about the whole stream. */
  lemma SeenMeans(s: State, boundary: Bytes, events: seq<Event>, at: int)
    requires boundary != [] && Decided(s, boundary, events) && s.pending == [] && s.boundarySeen
    requires at == IndexOf(s.received, boundary) >= 0
    ensures s.outcome.Fulfilled? <==> ChunkEndsAt(events, at + |boundary|)
    ensures s.outcome.Rejected? <==> !ChunkEndsAt(events, at + |boundary|)
  {
    IndexFromIsFirst(s.received, boundary, 0, 0);
  }

  /**
   * The verdict does depend on the chunks. Without errors and with every
   * write called back, the promise is fulfilled exactly when a boundary
   * occurs and some chunk ends with the first one, and rejected exactly when
   * a boundary occurs and no chunk does, or the stream ends without one.
   */
  lemma VerdictOnChunks(start: State, boundary: Bytes, events: seq<Event>)
    requires boundary != [] && start == INITIAL && Run(start, boundary, events).Some?
    requires ErrorFreeRun(events) && Run(start, boundary, events).value.pending == []
    ensures var outcome := Run(start, boundary, events).value.outcome;
            var at := IndexOf(Stream(events), boundary);
            && (outcome.Fulfilled? <==> at >= 0 && ChunkEndsAt(events, at + |boundary|))
            && (outcome.Rejected? <==> if at >= 0 then !ChunkEndsAt(events, at + |boundary|) else End in events)
  {
    var s := CleanResult(start, boundary, events);
    if s.boundarySeen {
      PrefixDecides(boundary, s.received, Stream(events));
      SeenMeans(s, boundary, events, IndexOf(s.received, boundary));
    }
  }
}
