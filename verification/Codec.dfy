/** Newline-delimited frames over a byte stream (`src/ipc/codec.rs`). */
module Codec {
  import opened Wrappers

  newtype byte = x: int | 0 <= x < 256

  type Bytes = seq<byte>

  const NEWLINE: byte := 10
  const CARRIAGE_RETURN: byte := 13

  const MAX_IPC_LINE_BYTES: nat := 64 * 1024

  /** Where the first newline sits. */
  function FirstNewline(s: Bytes): (r: Option<nat>)
    ensures r.Some? ==> r.value < |s| && s[r.value] == NEWLINE && NEWLINE !in s[..r.value]
    ensures r.None? ==> NEWLINE !in s
  {
    if s == [] then None
    else if s[0] == NEWLINE then Some(0)
    else
      match FirstNewline(s[1..])
      case None => None
      case Some(n) => assert s[..n + 1] == [s[0]] + s[1..][..n]; Some(n + 1)
  }

  // ------------------------------------------------------------------
  // Writing
  // ------------------------------------------------------------------

  /** `body` is the JSON text of a value, which never holds a raw newline. */
  function EncodeFramed(body: Bytes): Result<Bytes, nat> {
    if |body| + 1 > MAX_IPC_LINE_BYTES then Err(|body| + 1) else Ok(body + [NEWLINE])
  }

  /** A frame the writer lets through. */
  ghost predicate Admitted(frame: Bytes) {
    exists body: Bytes :: NEWLINE !in body && EncodeFramed(body) == Ok(frame)
  }

  function TrimLineEnd(line: Bytes): Bytes {
    if line != [] && (line[|line| - 1] == NEWLINE || line[|line| - 1] == CARRIAGE_RETURN) then
        TrimLineEnd(line[..|line| - 1])
    else line
  }

  /** The text a reader parses; an empty frame is an error. */
  function Decode(line: Bytes): Option<Bytes> {
    if TrimLineEnd(line) == [] then None else Some(TrimLineEnd(line))
  }

  // ------------------------------------------------------------------
  // Reading
  // ------------------------------------------------------------------

  datatype FrameResult =
    | Frame(text: Bytes)
    | EndOfStream
    | Oversized
    | MissingDelimiter
    | NotUtf8(bytes: Bytes)
    /** The call was dropped while waiting for more bytes. */
    | Pending

  /** What has been buffered of the current frame, and what the peer sent that is still to be read. */
  datatype Reading = Reading(partial: Bytes, unread: Bytes)

  /** Everything not yet handed out. */
  function Rest(s: Reading): Bytes {
    s.partial + s.unread
  }

  ghost predicate Sound(s: Reading) {
    NEWLINE !in s.partial && |s.partial| <= MAX_IPC_LINE_BYTES + 1
  }

  /** What one call may answer, and what it leaves behind. */
  ghost predicate Answers(before: Reading, ends: bool, utf8: Bytes -> bool, r: FrameResult, after: Reading) {
    var stream := Rest(before);
    match r
    case Frame(f) => utf8(f) && Cut(stream, f, after)
    case NotUtf8(f) => !utf8(f) && Cut(stream, f, after)
    case Oversized =>
      && |stream| > MAX_IPC_LINE_BYTES && NEWLINE !in stream[..MAX_IPC_LINE_BYTES + 1]
      && after == Reading(stream[..MAX_IPC_LINE_BYTES + 1], stream[MAX_IPC_LINE_BYTES + 1..])
    case EndOfStream => ends && before.unread == [] && |before.partial| <= MAX_IPC_LINE_BYTES && after == before
    case MissingDelimiter =>
      && ends && before.unread != [] && |stream| <= MAX_IPC_LINE_BYTES && NEWLINE !in stream
      && after == Reading(stream, [])
    case Pending =>
      && before.partial <= after.partial && Rest(after) == stream
      && NEWLINE !in after.partial && |after.partial| <= MAX_IPC_LINE_BYTES
  }

  /** `f` is the stream up to and including its first newline, which comes within the limit. */
  ghost predicate Cut(stream: Bytes, f: Bytes, after: Reading) {
    var n := FirstNewline(stream);
    && n.Some? && n.value <= MAX_IPC_LINE_BYTES
    && f == stream[..n.value + 1] && after == Reading([], stream[n.value + 1..])
  }

  lemma {:induction false} NewlineAfter(head: Bytes, tail: Bytes)
    requires NEWLINE !in head
    ensures FirstNewline(head + tail) == (match FirstNewline(tail) case None => None case Some(n) => Some(|head| + n))
  {
    if head == [] {
      assert head + tail == tail;
    } else {
      assert (head + tail)[1..] == head[1..] + tail;
      NewlineAfter(head[1..], tail);
    }
  }

  lemma {:induction false} NewlineWithin(s: Bytes, k: nat)
    requires k <= |s| && FirstNewline(s[..k]).Some?
    ensures FirstNewline(s) == FirstNewline(s[..k])
  {
  }

  /** Moving the first bytes of what is unread, up to its newline if it shows, into the buffer. */
  lemma {:induction false} Chunk(partial: Bytes, unread: Bytes, ready: nat, used: nat)
    requires NEWLINE !in partial && ready <= |unread|
    requires var found := FirstNewline(unread[..ready]);
             used == if found.Some? then found.value + 1 else ready
    ensures used <= |unread| && (partial + unread[..used]) + unread[used..] == partial + unread
    ensures FirstNewline(unread[..ready]).None? ==> NEWLINE !in partial + unread[..used]
    ensures FirstNewline(unread[..ready]).Some? ==>
              && FirstNewline(partial + unread) == Some(|partial| + used - 1)
              && (partial + unread[..used])[|partial| + used - 1] == NEWLINE
  {
    assert unread[..used] + unread[used..] == unread;
    if FirstNewline(unread[..ready]).Some? {
      NewlineWithin(unread, ready);
      NewlineAfter(partial, unread);
    }
  }

  class FrameReader {
    var partial: Bytes
    /** What the peer sends from here on. */
    var unread: Bytes
    /** Whether the peer closes the connection after that. */
    const ends: bool
    const utf8: Bytes -> bool

    ghost function State(): Reading
      reads this
    {
      Reading(partial, unread)
    }

    constructor (unread: Bytes, ends: bool, utf8: Bytes -> bool)
      ensures State() == Reading([], unread) && this.ends == ends && this.utf8 == utf8
    {
      this.partial, this.unread, this.ends, this.utf8 := [], unread, ends, utf8;
    }

    /**
     * One call. `polls` says how many bytes are ready each time the reader looks; when it runs
     * out, or when no more bytes will ever come, the caller gives up waiting and drops the call.
     */
    method NextFrame(polls: seq<nat>) returns (r: FrameResult)
      requires Sound(State())
      modifies this
      ensures Sound(State())
      ensures Answers(old(State()), ends, utf8, r, State())
      ensures r.Pending? ==> |polls| <= |old(unread)| || !ends
    {
      if |partial| > MAX_IPC_LINE_BYTES {
        assert partial + unread == old(partial) + old(unread);
        assert (partial + unread)[..MAX_IPC_LINE_BYTES + 1] == partial;
        return Oversized;
      }
      var stop := ReadUntil(MAX_IPC_LINE_BYTES + 1 - |partial|, polls);
      match stop {
        case Waiting => return Pending;
        case Stopped(0) => return EndOfStream;
        case Stopped(_) =>
          if partial[|partial| - 1] != NEWLINE {
            assert unread == [] ==> partial == Rest(old(State()));
            return if |partial| > MAX_IPC_LINE_BYTES then Oversized else MissingDelimiter;
          }
          var frame := partial;
          partial := [];
          return if utf8(frame) then Frame(frame) else NotUtf8(frame);
      }
    }

    /** Append to `partial` up to a newline, the budget or the end of the stream; count what was read. */
    method ReadUntil(budget: nat, polls: seq<nat>) returns (stop: Stop)
      requires NEWLINE !in partial && budget > 0
      modifies this
      ensures old(partial) <= partial && partial + unread == old(partial) + old(unread)
      ensures |partial| <= |old(partial)| + budget
      ensures stop.Stopped? ==> stop.read == |partial| - |old(partial)|
      ensures stop.Waiting? ==> NEWLINE !in partial && |partial| < |old(partial)| + budget
      ensures stop.Waiting? ==> |polls| <= |old(unread)| || !ends
      ensures stop.Stopped? && partial != [] && partial[|partial| - 1] == NEWLINE ==>
                FirstNewline(old(partial) + old(unread)) == Some(|partial| - 1)
      ensures stop.Stopped? && (partial == [] || partial[|partial| - 1] != NEWLINE) ==>
                NEWLINE !in partial && (|partial| == |old(partial)| + budget || (ends && unread == []))
    {
      ghost var stream := partial + unread;
      var read, i := 0, 0;
      while read < budget
        invariant 0 <= i <= |polls| && i <= read <= budget
        invariant NEWLINE !in partial && partial + unread == stream
        invariant old(partial) <= partial && |partial| == |old(partial)| + read
        decreases |polls| - i
      {
        if i == |polls| || (unread == [] && !ends) {
          assert |old(unread)| == read + |unread|;
          return Waiting;
        }
        if unread == [] { break; }
        var ready := Min(Min(Max(polls[i], 1), |unread|), budget - read);
        var found := FirstNewline(unread[..ready]);
        var used := if found.Some? then found.value + 1 else ready;
        Chunk(partial, unread, ready, used);
        if found.Some? {
          partial, unread := partial + unread[..used], unread[used..];
          return Stopped(read + used);
        }
        partial, unread := partial + unread[..used], unread[used..];
        read, i := read + used, i + 1;
      }
      return Stopped(read);
    }
  }

  datatype Stop = Waiting | Stopped(read: nat)

  function Min(a: nat, b: nat): nat { if a < b then a else b }

  function Max(a: nat, b: nat): nat { if a < b then b else a }

  // ------------------------------------------------------------------
  // Runs of calls
  // ------------------------------------------------------------------

  /** The frames a stream holds, read in one go: up to the first stretch without a newline that is too long. */
  function Frames(stream: Bytes): seq<Bytes>
    decreases |stream|
  {
    var n := FirstNewline(stream);
    if n.Some? && n.value <= MAX_IPC_LINE_BYTES then [stream[..n.value + 1]] + Frames(stream[n.value + 1..]) else []
  }

  /** What follows those frames. */
  function Tail(stream: Bytes): Bytes
    decreases |stream|
  {
    var n := FirstNewline(stream);
    if n.Some? && n.value <= MAX_IPC_LINE_BYTES then Tail(stream[n.value + 1..]) else stream
  }

  function Flatten(frames: seq<Bytes>): Bytes {
    if frames == [] then [] else frames[0] + Flatten(frames[1..])
  }

  /** The complete frame an answer carries, if it carries one. */
  function Out(r: FrameResult): seq<Bytes> {
    match r
    case Frame(f) => [f]
    case NotUtf8(f) => [f]
    case _ => []
  }

  /** The complete frames a run of calls handed out, in order. */
  function Yielded(results: seq<FrameResult>): seq<Bytes> {
    if results == [] then [] else Yielded(results[..|results| - 1]) + Out(results[|results| - 1])
  }

  /** Calls one after another on one reader; the reader carries on after any answer, dropped calls included. */
  ghost predicate Run(states: seq<Reading>, results: seq<FrameResult>, ends: bool, utf8: Bytes -> bool) {
    && |states| == |results| + 1
    && states[0].partial == []
    && forall i :: 0 <= i < |results| ==> Answers(states[i], ends, utf8, results[i], states[i + 1])
  }

  lemma {:induction false} CutKeeps(stream: Bytes, f: Bytes, after: Reading)
    requires Cut(stream, f, after)
    ensures Rest(after) == after.unread && f + Rest(after) == stream
    ensures Frames(stream) == [f] + Frames(Rest(after)) && Tail(stream) == Tail(Rest(after))
  {
  }

  /** One call hands out the next frame of the stream or leaves its frames as they are. */
  lemma {:induction false} CallKeeps(before: Reading, ends: bool, utf8: Bytes -> bool, r: FrameResult, after: Reading)
    requires Sound(before) && Answers(before, ends, utf8, r, after)
    ensures Sound(after)
    ensures Out(r) + Frames(Rest(after)) == Frames(Rest(before)) && Tail(Rest(after)) == Tail(Rest(before))
    ensures if Out(r) == [] then Rest(after) == Rest(before) else Out(r)[0] + Rest(after) == Rest(before)
  {
    if r.Frame? { CutKeeps(Rest(before), r.text, after); }
    else if r.NotUtf8? { CutKeeps(Rest(before), r.bytes, after); }
    else {
      assert Rest(after) == Rest(before);
      assert Out(r) + Frames(Rest(after)) == Frames(Rest(after));
    }
  }

  /** What was handed out and what is still ahead make up the stream, frame by frame and byte by byte. */
  ghost predicate Accounted(done: seq<Bytes>, now: Reading, stream: Bytes) {
    && Sound(now)
    && done + Frames(Rest(now)) == Frames(stream) && Tail(Rest(now)) == Tail(stream)
    && Flatten(done) + Rest(now) == stream
  }

  lemma {:induction false} FlattenSnoc(frames: seq<Bytes>, f: Bytes)
    ensures Flatten(frames + [f]) == Flatten(frames) + f
  {
    if frames == [] {
    } else {
      assert (frames + [f])[1..] == frames[1..] + [f];
      FlattenSnoc(frames[1..], f);
      assert Flatten(frames) == frames[0] + Flatten(frames[1..]);
    }
  }

  lemma {:induction false} Handover(
      done: seq<Bytes>, out: seq<Bytes>, ahead: seq<Bytes>, aheadBefore: seq<Bytes>, rest: Bytes, restBefore: Bytes)
    requires |out| <= 1 && out + ahead == aheadBefore
    requires if out == [] then rest == restBefore else out[0] + rest == restBefore
    ensures (done + out) + ahead == done + aheadBefore
    ensures Flatten(done + out) + rest == Flatten(done) + restBefore
  {
    if out == [] {
      assert done + out == done;
    } else {
      assert out == [out[0]];
      FlattenSnoc(done, out[0]);
    }
  }

  lemma {:induction false} CallAccounted(
      done: seq<Bytes>, before: Reading, ends: bool, utf8: Bytes -> bool, r: FrameResult, after: Reading, stream: Bytes)
    requires Accounted(done, before, stream) && Answers(before, ends, utf8, r, after)
    ensures Accounted(done + Out(r), after, stream)
  {
    CallKeeps(before, ends, utf8, r, after);
    Handover(done, Out(r), Frames(Rest(after)), Frames(Rest(before)), Rest(after), Rest(before));
  }

  lemma {:induction false} RunAccounted(states: seq<Reading>, results: seq<FrameResult>, ends: bool,
        utf8: Bytes -> bool)
    requires Run(states, results, ends, utf8)
    ensures Accounted(Yielded(results), states[|results|], states[0].unread)
    decreases |results|
  {
    if results == [] {
      assert Rest(states[0]) == states[0].unread;
      assert [] + Frames(Rest(states[0])) == Frames(states[0].unread);
    } else {
      var n := |results| - 1;
      RunAccounted(states[..n + 1], results[..n], ends, utf8);
      CallAccounted(Yielded(results[..n]), states[n], ends, utf8, results[n], states[n + 1], states[0].unread);
    }
  }

  /**
   * However the bytes arrived and wherever calls were dropped: the frames handed out so far and the
   * frames still ahead are exactly the frames of the stream, no byte is lost or repeated, and
   * what is buffered is part of one frame and never more than one byte over the limit.
   */
  lemma {:induction false} FramesSurvive(states: seq<Reading>, results: seq<FrameResult>, ends: bool,
        utf8: Bytes -> bool)
    requires Run(states, results, ends, utf8)
    ensures var now, stream := states[|results|], states[0].unread;
            && Yielded(results) + Frames(now.partial + now.unread) == Frames(stream)
            && Flatten(Yielded(results)) + now.partial + now.unread == stream
            && NEWLINE !in now.partial && |now.partial| <= MAX_IPC_LINE_BYTES + 1
  {
    RunAccounted(states, results, ends, utf8);
  }

  /** One newline, at the end, within a byte of the limit. */
  ghost predicate IsLine(f: Bytes) {
    f != [] && f[|f| - 1] == NEWLINE && NEWLINE !in f[..|f| - 1] && |f| <= MAX_IPC_LINE_BYTES + 1
  }

  lemma {:induction false} CutIsLine(stream: Bytes, n: nat)
    requires FirstNewline(stream) == Some(n) && n <= MAX_IPC_LINE_BYTES
    ensures IsLine(stream[..n + 1])
  {
  }

  /** Every frame ends at its only newline. */
  lemma {:induction false} FramesAreLines(stream: Bytes)
    ensures forall f :: f in Frames(stream) ==> IsLine(f)
    decreases |stream|
  {
    var n := FirstNewline(stream);
    if n.None? || n.value > MAX_IPC_LINE_BYTES {
    } else {
      CutIsLine(stream, n.value);
      FramesAreLines(stream[n.value + 1..]);
    }
  }

  // ------------------------------------------------------------------
  // How a run can end
  // ------------------------------------------------------------------

  /** "Too long" is answered exactly when the stream's next line has no newline among its first MAX + 1 bytes. */
  lemma {:induction false} OversizedExactly(states: seq<Reading>, results: seq<FrameResult>, ends: bool,
        utf8: Bytes -> bool)
    requires Run(states, results, ends, utf8) && results != [] && !results[|results| - 1].Pending?
    ensures var stream := Rest(states[|results| - 1]);
            results[|results| - 1].Oversized? <==>
              |stream| > MAX_IPC_LINE_BYTES && NEWLINE !in stream[..MAX_IPC_LINE_BYTES + 1]
  {
    var n := |results| - 1;
    var stream := Rest(states[n]);
    assert Answers(states[n], ends, utf8, results[n], states[n + 1]);
    if |stream| > MAX_IPC_LINE_BYTES && NEWLINE !in stream[..MAX_IPC_LINE_BYTES + 1] {
      TooLong(stream);
      assert states[n].unread == [] ==> stream == states[n].partial;
    }
  }

  /**
   * What a run knows when it is told the stream is over: it has handed out every frame, and holds
   * whatever came after the last one. It is told so as a clean close exactly when its last call
   * read nothing, so a clean close was one between frames exactly when nothing is held.
   */
  lemma {:induction false} CloseMeaning(states: seq<Reading>, results: seq<FrameResult>, ends: bool,
        utf8: Bytes -> bool)
    requires Run(states, results, ends, utf8) && results != []
    requires results[|results| - 1].EndOfStream? || results[|results| - 1].MissingDelimiter?
    ensures var last, stream := |results| - 1, states[0].unread;
            && Yielded(results) == Frames(stream) && states[|results|] == Reading(Tail(stream), [])
            && (results[last].EndOfStream? <==> states[last].unread == [])
            && (results[last].MissingDelimiter? ==> Tail(stream) != [])
  {
    var n := |results| - 1;
    RunAccounted(states, results, ends, utf8);
    assert Answers(states[n], ends, utf8, results[n], states[n + 1]);
    assert Rest(states[n + 1]) == states[n + 1].partial;
    assert Frames(Rest(states[n + 1])) == [] && Yielded(results) + [] == Yielded(results);
  }

  /**
   * So a peer that leaves half a frame behind is taken for one that closed cleanly when an earlier,
   * dropped call read that half.
   */
  lemma {:induction false} HalfFrameMistakenForClose(half: Bytes, utf8: Bytes -> bool)
    requires half != [] && NEWLINE !in half && |half| <= MAX_IPC_LINE_BYTES
    ensures Run([Reading([], half), Reading(half, []), Reading(half, [])], [Pending, EndOfStream], true, utf8)
    ensures Run([Reading([], half), Reading(half, [])], [MissingDelimiter], true, utf8)
  {
  }

  // ------------------------------------------------------------------
  // Round trip
  // ------------------------------------------------------------------

  lemma {:induction false} FirstFrame(body: Bytes, rest: Bytes)
    requires NEWLINE !in body && |body| < MAX_IPC_LINE_BYTES
    ensures var f := body + [NEWLINE];
            Frames(f + rest) == [f] + Frames(rest) && Tail(f + rest) == Tail(rest)
  {
    var f := body + [NEWLINE];
    assert f + rest == body + ([NEWLINE] + rest);
    NewlineAfter(body, [NEWLINE] + rest);
    assert (f + rest)[..|body| + 1] == f && (f + rest)[|body| + 1..] == rest;
  }

  lemma {:induction false} FramesOfAdmitted(frames: seq<Bytes>)
    requires forall f :: f in frames ==> Admitted(f)
    ensures Frames(Flatten(frames)) == frames && Tail(Flatten(frames)) == []
  {
    if frames == [] {
    } else {
      var f, rest := frames[0], Flatten(frames[1..]);
      assert Admitted(f);
      var body :| NEWLINE !in body && EncodeFramed(body) == Ok(f);
      FramesOfAdmitted(frames[1..]);
      FirstFrame(body, rest);
      assert frames == [f] + frames[1..];
    }
  }

  /**
   * A peer sends frames the writer admitted. Whatever the chunking and the dropped calls, they are
   * read back unchanged and in order, nothing is ever called too long or cut off, and the close is
   * reported only once every frame has been read.
   */
  lemma {:induction false} AdmittedFramesReadBack(
      frames: seq<Bytes>, states: seq<Reading>, results: seq<FrameResult>, ends: bool, utf8: Bytes -> bool)
    requires forall f :: f in frames ==> Admitted(f) && utf8(f)
    requires Run(states, results, ends, utf8) && states[0].unread == Flatten(frames)
    ensures Yielded(results) <= frames
    ensures forall i :: 0 <= i < |results| ==> results[i].Frame? || results[i].Pending? || results[i].EndOfStream?
    ensures EndOfStream in results ==> Yielded(results) == frames
  {
    FramesOfAdmitted(frames);
    RunAccounted(states, results, ends, utf8);
    forall i | 0 <= i < |results|
      ensures results[i].Frame? || results[i].Pending? || results[i].EndOfStream?
      ensures results[i].EndOfStream? ==> Yielded(results) == frames
    {
      RunAccounted(states[..i + 1], results[..i], ends, utf8);
      var done := Yielded(results[..i]);
      AdmittedAnswer(frames, done, states[i], ends, utf8, results[i], states[i + 1]);
      YieldedGrows(results, i);
    }
  }

  lemma {:induction false} YieldedGrows(results: seq<FrameResult>, i: nat)
    requires i <= |results|
    ensures Yielded(results[..i]) <= Yielded(results)
    decreases |results| - i
  {
    if i == |results| {
      assert results[..i] == results;
    } else {
      YieldedGrows(results, i + 1);
      assert results[..i + 1][..i] == results[..i];
    }
  }

  lemma {:induction false} NextIsListed(done: seq<Bytes>, ahead: seq<Bytes>, frames: seq<Bytes>)
    requires done + ahead == frames
    ensures ahead != [] ==> ahead[0] in frames
  {
  }

  lemma {:induction false} AdmittedAnswer(
      frames: seq<Bytes>, done: seq<Bytes>, before: Reading, ends: bool, utf8: Bytes -> bool, r: FrameResult,
          after: Reading)
    requires forall f :: f in frames ==> utf8(f)
    requires Frames(Flatten(frames)) == frames && Tail(Flatten(frames)) == []
    requires Accounted(done, before, Flatten(frames)) && Answers(before, ends, utf8, r, after)
    ensures r.Frame? || r.Pending? || r.EndOfStream?
    ensures r.EndOfStream? ==> done == frames
  {
    var stream := Rest(before);
    assert done + Frames(stream) == frames;
    if r.NotUtf8? { CutKeeps(stream, r.bytes, after); }
    NextIsListed(done, Frames(stream), frames);
    if r.Oversized? {
      TooLong(stream);
    } else if r.EndOfStream? {
      assert stream == before.partial;
      assert Frames(stream) == [];
    }
  }

  lemma {:induction false} TooLong(stream: Bytes)
    requires |stream| > MAX_IPC_LINE_BYTES && NEWLINE !in stream[..MAX_IPC_LINE_BYTES + 1]
    ensures Tail(stream) == stream && Frames(stream) == []
  {
  }

  lemma {:induction false} TrimStops(body: Bytes)
    ensures body == [] || (body[|body| - 1] != NEWLINE && body[|body| - 1] != CARRIAGE_RETURN) <==>
            TrimLineEnd(body) == body
    ensures |TrimLineEnd(body)| <= |body|
  {
    if body == [] {
    } else {
      TrimStops(body[..|body| - 1]);
    }
  }

  /**
   * The payload comes back from its frame exactly when it is not empty and does not end in a carriage
   * return or newline.
   */
  lemma {:induction false} PayloadRoundTrip(body: Bytes)
    requires EncodeFramed(body).Ok?
    ensures Decode(EncodeFramed(body).value) == Some(body) <==>
              body != [] && body[|body| - 1] != NEWLINE && body[|body| - 1] != CARRIAGE_RETURN
  {
    var frame := EncodeFramed(body).value;
    assert frame[..|frame| - 1] == body;
    TrimStops(body);
  }

  /**
   * The writer stops one byte short of what the reader takes: the longest payload it frames is MAX - 1
   * bytes, and a line of one more would still be read as a frame.
   */
  lemma {:induction false} LimitsMeet(body: Bytes)
    requires NEWLINE !in body
    ensures EncodeFramed(body) == (if |body| < MAX_IPC_LINE_BYTES then Ok(body + [NEWLINE]) else Err(|body| + 1))
    ensures Frames(body + [NEWLINE]) == [body + [NEWLINE]] <==> |body| <= MAX_IPC_LINE_BYTES
  {
    NewlineAfter(body, [NEWLINE]);
    assert (body + [NEWLINE])[..|body| + 1] == body + [NEWLINE] && (body + [NEWLINE])[|body| + 1..] == [];
  }

  predicate IsLineEnd(b: byte) {
    b == NEWLINE || b == CARRIAGE_RETURN
  }

  /** A reader parses the line without the newlines and carriage returns at its end, and nothing less. */
  lemma {:induction false} TrimLineEndMeaning(line: Bytes)
    ensures TrimLineEnd(line) <= line
    ensures TrimLineEnd(line) == [] || !IsLineEnd(TrimLineEnd(line)[|TrimLineEnd(line)| - 1])
    ensures forall i :: |TrimLineEnd(line)| <= i < |line| ==> IsLineEnd(line[i])
  {
    if line == [] || !IsLineEnd(line[|line| - 1]) {
    } else {
      var shorter := line[..|line| - 1];
      TrimLineEndMeaning(shorter);
      forall i | |TrimLineEnd(line)| <= i < |line| ensures IsLineEnd(line[i]) {
        if i < |line| - 1 { assert line[i] == shorter[i]; }
      }
    }
  }
}
