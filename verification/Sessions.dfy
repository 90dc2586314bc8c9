/** What one connection is answered (`src/ipc/unix_server.rs`, `src/ipc/protocol.rs`). */
module Sessions {
  import opened Wrappers
  import opened Names
  import opened Codec

  // ------------------------------------------------------------------
  // Messages and their size on the wire
  // ------------------------------------------------------------------

  /** The codes this module uses itself, and any other. */
  datatype Code = IpcProtocolError | ServerError | OtherCode(wire: string)

  /** The error texts this module writes itself, and any other. */
  datatype Words =
    | FrameTooLarge
    | HandlerDropped
    | HandlerUnavailable
    | MalformedReply
    | IdMismatch
    | MalformedReplyId
    | Said(text: string)

  datatype ErrorPayload = ErrorPayload(code: Code, message: Words)

  /** `result` and `data` are JSON text already. */
  datatype Message =
    | Response(id: string, ok: bool, result: Option<string>, error: Option<ErrorPayload>)
    | Event(topic: string, data: string)

  const MAX_IPC_REQUEST_ID_BYTES: nat := 64
  const MAX_COMMAND_NAME_BYTES: nat := 64

  function Utf8Len(s: string): nat {
    if s == "" then 0
    else
      var width := if s[0] < '\U{80}' then 1 else if s[0] < '\U{800}' then 2 else if s[0] < '\U{10000}' then 3 else 4;
      Utf8Len(s[1..]) + width
  }

  /**
   * The length of a string inside JSON quotes: a quote and a backslash take two bytes, a control character
   * up to six.
   */
  function EscapedLen(s: string): nat {
    if s == "" then 0
    else
      EscapedLen(s[1..]) +
      if s[0] == '"' || s[0] == '\\' then 2
      else if s[0] < '\U{20}' then (if s[0] in "\U{8}\t\n\U{C}\r" then 2 else 6)
      else Utf8Len([s[0]])
  }

  /** The wire names are plain capitals and underscores, so they encode as they stand. */
  function CodeLen(c: Code): nat {
    match c case IpcProtocolError => 18 case ServerError => 12 case OtherCode(wire) => EscapedLen(wire)
  }

  function WordsLen(w: Words): nat {
    match w
    case FrameTooLarge => 24
    case HandlerDropped => 23
    case HandlerUnavailable => 27
    case MalformedReply => 34
    case IdMismatch => 20
    case MalformedReplyId => 21
    case Said(text) => EscapedLen(text)
  }

  function ErrorLen(e: Option<ErrorPayload>): nat {
    match e case None => 0 case Some(p) => 33 + CodeLen(p.code) + WordsLen(p.message)
  }

  function ResultLen(r: Option<string>): nat {
    match r case None => 0 case Some(text) => 10 + Utf8Len(text)
  }

  /** The encoded line, newline included. */
  function EncodedLen(m: Message): nat {
    match m
    case Response(id, ok, result, error) =>
      34 + EscapedLen(id) + (if ok then 4 else 5) + ResultLen(result) + ErrorLen(error)
    case Event(topic, data) => 36 + EscapedLen(topic) + Utf8Len(data)
  }

  predicate Fits(m: Message) {
    EncodedLen(m) <= MAX_IPC_LINE_BYTES
  }

  function ErrResponse(id: string, code: Code, message: Words): Message {
    Response(id, false, None, Some(ErrorPayload(code, message)))
  }

  function Fallback(id: string): Message {
    ErrResponse(id, IpcProtocolError, FrameTooLarge)
  }

  /** What sending a message queues: itself, a small error in its place, or nothing. */
  function QueuedFor(m: Message): seq<Message> {
    if Fits(m) then [m]
    else
      match m
      case Event(_, _) => []
      case Response(id, _, _, _) => if Fits(Fallback(id)) then [Fallback(id)] else []
  }

  // ------------------------------------------------------------------
  // Requests and replies
  // ------------------------------------------------------------------

  predicate BoundedToken(s: string, maxBytes: nat) {
    && s != "" && Utf8Len(s) <= maxBytes
    && forall i :: 0 <= i < |s| ==> !IsControl(s[i]) && !IsWhitespace(s[i])
  }

  predicate ValidRequestId(id: string) {
    BoundedToken(id, MAX_IPC_REQUEST_ID_BYTES)
  }

  predicate ValidCommandName(name: string) {
    BoundedToken(name, MAX_COMMAND_NAME_BYTES)
  }

  /** A handler's reply is trusted only if it is a response carrying the id of the request. */
  function Sanitized(reply: Message, requestId: string): Message {
    match reply
    case Event(_, _) => ErrResponse(requestId, IpcProtocolError, MalformedReply)
    case Response(id, _, _, _) =>
      if id != requestId then ErrResponse(requestId, IpcProtocolError, IdMismatch)
      else if !ValidRequestId(id) then ErrResponse(requestId, IpcProtocolError, MalformedReplyId)
      else reply
  }

  /** A dispatch the client asked for, or the snapshot pushed after a first subscription to state. */
  datatype Purpose = Request | StateInit

  function AnswerFor(purpose: Purpose, requestId: string, reply: Option<Message>): Option<Message> {
    match purpose
    case Request =>
      (match reply
       case None => Some(ErrResponse(requestId, ServerError, HandlerDropped))
       case Some(r) => Some(Sanitized(r, requestId)))
    case StateInit =>
      match reply
      case None => None
      case Some(r) =>
        var s := Sanitized(r, requestId);
        if s.Response? && s.ok && s.result.Some? then Some(Event("state", s.result.value)) else None
  }

  /** Everything the client is sent for one dispatch, whatever became of it. */
  function Delivered(purpose: Purpose, requestId: string, reply: Option<Message>): seq<Message> {
    match AnswerFor(purpose, requestId, reply) case None => [] case Some(m) => QueuedFor(m)
  }

  // ------------------------------------------------------------------
  // The session
  // ------------------------------------------------------------------

  datatype Control = Continue | Close

  datatype Dispatch = Dispatch(purpose: Purpose, id: string)

  class SessionWriter {
    /** Lines queued for the client, oldest first. */
    var queued: seq<Message>

    constructor ()
      ensures queued == []
    {
      queued := [];
    }

    method Send(m: Message)
      modifies this
      ensures queued == old(queued) + QueuedFor(m)
    {
      if EncodedLen(m) <= MAX_IPC_LINE_BYTES {
        queued := queued + [m];
      } else if m.Response? {
        var fallback := ErrResponse(m.id, IpcProtocolError, FrameTooLarge);
        if EncodedLen(fallback) <= MAX_IPC_LINE_BYTES { queued := queued + [fallback]; }
      }
    }

    method Reject(id: string, code: Code, message: Words) returns (control: Control)
      modifies this
      ensures queued == old(queued) + QueuedFor(ErrResponse(id, code, message)) && control == Close
    {
      Send(ErrResponse(id, code, message));
      return Close;
    }

    /** The spawned half of a dispatch: wait for the reply, then pass it on. */
    method Forward(d: Dispatch, reply: Option<Message>)
      modifies this
      ensures queued == old(queued) + Delivered(d.purpose, d.id, reply)
    {
      var message := AnswerFor(d.purpose, d.id, reply);
      if message.Some? { Send(message.value); }
    }
  }

  class Session {
    const writer: SessionWriter
    /** Dispatches handed to this connection's lane, in order. */
    var sent: seq<Dispatch>

    constructor (writer: SessionWriter)
      ensures this.writer == writer && sent == []
    {
      this.writer := writer;
      this.sent := [];
    }

    /**
     * `problem` is the checker's wording. A command is either rejected, which ends the session, or
     * dispatched and answered later; never both.
     */
    method HandleCommand(id: string, name: string, laneOpen: bool, problem: string) returns (control: Control)
      modifies this, writer
      ensures control.Continue? <==> ValidRequestId(id) && ValidCommandName(name) && laneOpen
      ensures control.Continue? ==> sent == old(sent) + [Dispatch(Request, id)] && writer.queued == old(writer.queued)
      ensures control.Close? ==>
                var valid := ValidRequestId(id) && ValidCommandName(name);
                var error := if valid then ErrResponse(id, ServerError, HandlerUnavailable)
                             else ErrResponse(id, IpcProtocolError, Said(problem));
                sent == old(sent) && writer.queued == old(writer.queued) + QueuedFor(error)
    {
      if !ValidRequestId(id) {
        control := writer.Reject(id, IpcProtocolError, Said(problem));
        return;
      }
      if !ValidCommandName(name) {
        control := writer.Reject(id, IpcProtocolError, Said(problem));
        return;
      }
      if !laneOpen {
        control := writer.Reject(id, ServerError, HandlerUnavailable);
        return;
      }
      sent := sent + [Dispatch(Request, id)];
      return Continue;
    }
  }

  // ------------------------------------------------------------------
  // Exactly one response
  // ------------------------------------------------------------------

  lemma {:induction false} OneChar(c: char)
    ensures Utf8Len([c]) == if c < '\U{80}' then 1 else if c < '\U{800}' then 2 else if c < '\U{10000}' then 3 else 4
  {
  }

  /** Without control characters, escaping at most doubles the length. */
  lemma {:induction false} EscapingAtMostDoubles(s: string)
    requires forall i :: 0 <= i < |s| ==> !IsControl(s[i])
    ensures EscapedLen(s) <= 2 * Utf8Len(s)
  {
    if s == "" {
    } else {
      assert forall i :: 0 <= i < |s[1..]| ==> s[1..][i] == s[i + 1];
      EscapingAtMostDoubles(s[1..]);
      assert !IsControl(s[0]);
      OneChar(s[0]);
    }
  }

  /** A small error under a valid request id always fits in a line. */
  lemma {:induction false} SmallErrorFits(id: string, code: Code, message: Words)
    requires ValidRequestId(id) && CodeLen(code) + WordsLen(message) <= 60000
    ensures Fits(ErrResponse(id, code, message))
  {
    EscapingAtMostDoubles(id);
  }

  /**
   * Whatever the handler does with a request that passed the id check (drop it, answer with an
   * event, answer for another request, overflow the line), the client is queued exactly one
   * response, under its own id and within the line limit; and it is the handler's own reply
   * exactly when that reply is a response with that id that fits.
   */
  lemma {:induction false} OneResponsePerRequest(requestId: string, reply: Option<Message>)
    requires ValidRequestId(requestId)
    ensures var q := Delivered(Request, requestId, reply);
            && |q| == 1 && q[0].Response? && q[0].id == requestId && Fits(q[0])
            && (reply.Some? ==> (q[0] == reply.value <==>
                reply.value.Response? && reply.value.id == requestId && Fits(reply.value)))
            && (reply.None? || q[0] != reply.value ==> !q[0].ok && q[0].error.Some?)
  {
    forall code, message | CodeLen(code) + WordsLen(message) <= 60000
      ensures Fits(ErrResponse(requestId, code, message))
    {
      SmallErrorFits(requestId, code, message);
    }
  }

  /** The push after a subscription is never more than one message, and never a response. */
  lemma {:induction false} StateInitIsAnEvent(requestId: string, reply: Option<Message>)
    ensures var q := Delivered(StateInit, requestId, reply);
            |q| <= 1 && forall m :: m in q ==> m.Event? && m.topic == "state" && Fits(m)
  {
  }

  /**
   * Nothing longer than a line is ever queued, and only an event, or a response whose id alone fills the
   * line, is lost.
   */
  lemma {:induction false} QueuedFits(m: Message)
    ensures forall q :: q in QueuedFor(m) ==> Fits(q)
    ensures QueuedFor(m) == [] <==> !Fits(m) && (m.Event? || !Fits(Fallback(m.id)))
    ensures forall q :: q in QueuedFor(m) && m.Response? ==> q.Response? && q.id == m.id
  {
  }

  /**
   * Exactly when the first snapshot is pushed: the handler answered that request, successfully and with a
   * result, and the event fits; it then carries that result.
   */
  lemma {:induction false} StateInitExactly(requestId: string, reply: Option<Message>)
    requires ValidRequestId(requestId)
    ensures var pushed := Delivered(StateInit, requestId, reply);
            match reply
            case Some(Response(id, true, Some(result), _)) =>
              pushed == if id == requestId && Fits(Event("state", result)) then [Event("state", result)] else []
            case _ => pushed == []
  {
  }

  /** Why a request was answered with an error that is not the handler's. */
  lemma {:induction false} RefusalsSayWhy(requestId: string, reply: Option<Message>)
    requires ValidRequestId(requestId)
    ensures Delivered(Request, requestId, reply) ==
            match reply
            case None => [ErrResponse(requestId, ServerError, HandlerDropped)]
            case Some(Event(_, _)) => [ErrResponse(requestId, IpcProtocolError, MalformedReply)]
            case Some(Response(id, ok, result, error)) =>
              if id != requestId then [ErrResponse(requestId, IpcProtocolError, IdMismatch)]
              else if !Fits(reply.value) then [ErrResponse(requestId, IpcProtocolError, FrameTooLarge)]
              else [reply.value]
  {
    forall code, message | CodeLen(code) + WordsLen(message) <= 60000
      ensures Fits(ErrResponse(requestId, code, message))
    {
      SmallErrorFits(requestId, code, message);
    }
  }

  // ------------------------------------------------------------------
  // The encoded line
  // ------------------------------------------------------------------

  function HexDigit(d: nat): char
    requires d < 16
  {
    if d < 10 then ('0' as int + d) as char else ('a' as int + d - 10) as char
  }

  /** One character inside JSON quotes. */
  function EscapeChar(c: char): string {
    if c == '"' || c == '\\' then ['\\', c]
    else if c == '\U{8}' then ['\\', 'b']
    else if c == '\t' then ['\\', 't']
    else if c == '\n' then ['\\', 'n']
    else if c == '\U{C}' then ['\\', 'f']
    else if c == '\r' then ['\\', 'r']
    else if c < '\U{20}' then ['\\', 'u', '0', '0', HexDigit(c as int / 16), HexDigit(c as int % 16)]
    else [c]
  }

  function Escape(s: string): string {
    if s == "" then "" else EscapeChar(s[0]) + Escape(s[1..])
  }

  function CodeText(c: Code): string {
    match c
    case IpcProtocolError => "IPC_PROTOCOL_ERROR"
    case ServerError => "SERVER_ERROR"
    case OtherCode(wire) => wire
  }

  function WordsText(w: Words): string {
    match w
    case FrameTooLarge => "response frame too large"
    case HandlerDropped => "command handler dropped"
    case HandlerUnavailable => "command handler unavailable"
    case MalformedReply => "malformed command handler response"
    case IdMismatch => "response id mismatch"
    case MalformedReplyId => "malformed response id"
    case Said(text) => text
  }

  const RESPONSE_HEAD := "{\"type\":\"response\",\"id\":\""
  const OK_HEAD := "\",\"ok\":"
  const ERROR_HEAD := ",\"error\":{\"code\":\""
  const MESSAGE_HEAD := "\",\"message\":\""
  const ERROR_END := "\"}"
  const EVENT_HEAD := "{\"type\":\"event\",\"topic\":\""
  const DATA_HEAD := "\",\"data\":"

  function ResultText(r: Option<string>): string {
    match r case None => "" case Some(text) => ",\"result\":" + text
  }

  function ErrorText(e: Option<ErrorPayload>): string {
    match e
    case None => ""
    case Some(p) =>
      (ERROR_HEAD + Escape(CodeText(p.code))) + (MESSAGE_HEAD + Escape(WordsText(p.message))) + ERROR_END
  }

  /** The line a message becomes, newline included. */
  function Encode(m: Message): string {
    match m
    case Response(id, ok, result, error) =>
      (RESPONSE_HEAD + Escape(id)) + (OK_HEAD + if ok then "true" else "false")
      + (ResultText(result) + ErrorText(error)) + "}\n"
    case Event(topic, data) =>
      (EVENT_HEAD + Escape(topic)) + (DATA_HEAD + data) + "}\n"
  }

  lemma {:induction false} LenOfConcat(a: string, b: string)
    ensures Utf8Len(a + b) == Utf8Len(a) + Utf8Len(b)
  {
    if a == "" {
      assert a + b == b;
    } else {
      assert (a + b)[1..] == a[1..] + b;
      LenOfConcat(a[1..], b);
    }
  }

  predicate IsAscii(s: string) {
    forall i :: 0 <= i < |s| ==> s[i] < '\U{80}'
  }

  lemma {:induction false} LenOfAscii(s: string)
    requires IsAscii(s)
    ensures Utf8Len(s) == |s|
  {
    if s == "" {
    } else {
      assert IsAscii(s[1..]) by { assert forall i :: 0 <= i < |s| - 1 ==> s[1..][i] == s[i + 1]; }
      LenOfAscii(s[1..]);
    }
  }

  lemma {:induction false} LenOfEscapeChar(c: char)
    ensures Utf8Len(EscapeChar(c)) ==
            if c == '"' || c == '\\' then 2
            else if c < '\U{20}' then (if c in "\U{8}\t\n\U{C}\r" then 2 else 6)
            else Utf8Len([c])
  {
    if c < '\U{20}' || c == '"' || c == '\\' {
      assert IsAscii(EscapeChar(c));
      LenOfAscii(EscapeChar(c));
    }
  }

  lemma {:induction false} LenOfEscape(s: string)
    ensures Utf8Len(Escape(s)) == EscapedLen(s)
  {
    if s == "" {
    } else {
      LenOfEscapeChar(s[0]);
      LenOfEscape(s[1..]);
      LenOfConcat(EscapeChar(s[0]), Escape(s[1..]));
    }
  }

  predicate IsSafe(s: string) {
    forall i :: 0 <= i < |s| ==> '\U{20}' <= s[i] < '\U{80}' && s[i] != '"' && s[i] != '\\'
  }

  lemma {:induction false} LenOfSafe(s: string)
    requires IsSafe(s)
    ensures EscapedLen(s) == |s|
  {
    if s == "" {
    } else {
      assert IsSafe(s[1..]) by { assert forall i :: 0 <= i < |s| - 1 ==> s[1..][i] == s[i + 1]; }
      LenOfSafe(s[1..]);
      OneChar(s[0]);
    }
  }

  lemma {:induction false} CodeLenIs(c: Code)
    ensures CodeLen(c) == EscapedLen(CodeText(c))
  {
    if !c.OtherCode? { LenOfSafe(CodeText(c)); }
  }

  lemma {:induction false} HandlerWords(w: Words)
    requires w.HandlerDropped? || w.HandlerUnavailable?
    ensures IsSafe(WordsText(w)) && WordsLen(w) == |WordsText(w)|
  {
  }

  lemma {:induction false} ReplyWords(w: Words)
    requires w.MalformedReply?
    ensures IsSafe(WordsText(w)) && WordsLen(w) == |WordsText(w)|
  {
  }

  lemma {:induction false} IdWords(w: Words)
    requires w.IdMismatch? || w.MalformedReplyId?
    ensures IsSafe(WordsText(w)) && WordsLen(w) == |WordsText(w)|
  {
  }

  lemma {:induction false} FrameWords(w: Words)
    requires w.FrameTooLarge?
    ensures IsSafe(WordsText(w)) && WordsLen(w) == |WordsText(w)|
  {
  }

  lemma {:induction false} WordsLenIs(w: Words)
    ensures WordsLen(w) == EscapedLen(WordsText(w))
  {
    if w.HandlerDropped? || w.HandlerUnavailable? { HandlerWords(w); }
    else if w.MalformedReply? { ReplyWords(w); }
    else if w.IdMismatch? || w.MalformedReplyId? { IdWords(w); }
    else if w.FrameTooLarge? { FrameWords(w); }
    if !w.Said? { LenOfSafe(WordsText(w)); }
  }

  lemma {:induction false} ErrorHeads()
    ensures IsAscii(ERROR_HEAD) && |ERROR_HEAD| == 18 && IsAscii(MESSAGE_HEAD) && |MESSAGE_HEAD| == 13
    ensures IsAscii(ERROR_END) && |ERROR_END| == 2
  {
  }

  lemma {:induction false} ResponseHeads()
    ensures IsAscii(RESPONSE_HEAD) && |RESPONSE_HEAD| == 25 && IsAscii(OK_HEAD) && |OK_HEAD| == 7
  {
  }

  lemma {:induction false} EventHeads()
    ensures IsAscii(EVENT_HEAD) && |EVENT_HEAD| == 25 && IsAscii(DATA_HEAD) && |DATA_HEAD| == 9
  {
  }

  lemma {:induction false} JoinedLen(head: string, a: string, middle: string, b: string, rest: string, end: string)
    requires IsAscii(head) && IsAscii(middle) && IsAscii(end)
    ensures Utf8Len((head + a) + (middle + b) + rest + end) ==
            |head| + Utf8Len(a) + |middle| + Utf8Len(b) + Utf8Len(rest) + |end|
  {
    LenOfAscii(head);
    LenOfAscii(middle);
    LenOfAscii(end);
    LenOfConcat(head, a);
    LenOfConcat(middle, b);
    LenOfConcat(head + a, middle + b);
    LenOfConcat((head + a) + (middle + b), rest);
    LenOfConcat((head + a) + (middle + b) + rest, end);
  }

  lemma {:induction false} JoinedError(code: Code, message: Words)
    requires IsAscii(ERROR_HEAD) && IsAscii(MESSAGE_HEAD) && IsAscii(ERROR_END)
    ensures Utf8Len(ErrorText(Some(ErrorPayload(code, message)))) ==
            |ERROR_HEAD| + Utf8Len(Escape(CodeText(code))) + |MESSAGE_HEAD| + Utf8Len(Escape(WordsText(message)))
            + |ERROR_END|
  {
    var head, middle := ERROR_HEAD + Escape(CodeText(code)), MESSAGE_HEAD + Escape(WordsText(message));
    JoinedLen(ERROR_HEAD, Escape(CodeText(code)), MESSAGE_HEAD, Escape(WordsText(message)), "", ERROR_END);
    assert head + middle + "" == head + middle;
  }

  lemma {:induction false} ErrorLenIs(e: Option<ErrorPayload>)
    ensures ErrorLen(e) == Utf8Len(ErrorText(e))
  {
    if e.Some? {
      var code, message := CodeText(e.value.code), WordsText(e.value.message);
      ErrorHeads();
      CodeLenIs(e.value.code);
      WordsLenIs(e.value.message);
      LenOfEscape(code);
      LenOfEscape(message);
      JoinedError(e.value.code, e.value.message);
    }
  }

  lemma {:induction false} ResultLenIs(r: Option<string>)
    ensures ResultLen(r) == Utf8Len(ResultText(r))
  {
    if r.Some? {
      LenOfAscii(",\"result\":");
      LenOfConcat(",\"result\":", r.value);
    }
  }

  lemma {:induction false} ResponseLenIs(m: Message)
    requires m.Response?
    ensures EncodedLen(m) == Utf8Len(Encode(m))
  {
    var word := if m.ok then "true" else "false";
    ResponseHeads();
    LenOfAscii(word);
    LenOfEscape(m.id);
    ResultLenIs(m.result);
    ErrorLenIs(m.error);
    LenOfConcat(ResultText(m.result), ErrorText(m.error));
    JoinedLen(RESPONSE_HEAD, Escape(m.id), OK_HEAD, word, ResultText(m.result) + ErrorText(m.error), "}\n");
  }

  lemma {:induction false} EventLenIs(m: Message)
    requires m.Event?
    ensures EncodedLen(m) == Utf8Len(Encode(m))
  {
    var head, middle := EVENT_HEAD + Escape(m.topic), DATA_HEAD + m.data;
    EventHeads();
    LenOfEscape(m.topic);
    JoinedLen(EVENT_HEAD, Escape(m.topic), DATA_HEAD, m.data, "", "}\n");
    assert head + middle + "" == head + middle;
  }

  /** The length that decides whether a message fits is the length of the line it is written as. */
  lemma {:induction false} EncodedLenIs(m: Message)
    ensures EncodedLen(m) == Utf8Len(Encode(m))
  {
    if m.Response? { ResponseLenIs(m); } else { EventLenIs(m); }
  }

  predicate NoNewline(s: string) {
    forall i :: 0 <= i < |s| ==> s[i] != '\n'
  }

  lemma {:induction false} EscapeIsOneLine(s: string)
    ensures NoNewline(Escape(s))
  {
    if s == "" {
    } else {
      EscapeIsOneLine(s[1..]);
    }
  }

  lemma {:induction false} JoinedLine(head: string, a: string, middle: string, b: string, rest: string)
    requires NoNewline(head) && NoNewline(a) && NoNewline(middle) && NoNewline(b) && NoNewline(rest)
    ensures NoNewline((head + a) + (middle + b) + rest)
  {
  }

  lemma {:induction false} ErrorIsOneLine(e: Option<ErrorPayload>)
    ensures NoNewline(ErrorText(e))
  {
    if e.Some? {
      var code, message := Escape(CodeText(e.value.code)), Escape(WordsText(e.value.message));
      EscapeIsOneLine(CodeText(e.value.code));
      EscapeIsOneLine(WordsText(e.value.message));
      assert NoNewline(ERROR_HEAD) && NoNewline(MESSAGE_HEAD) && NoNewline(ERROR_END);
      JoinedLine(ERROR_HEAD, code, MESSAGE_HEAD, message, ERROR_END);
    }
  }

  lemma {:induction false} ResultIsOneLine(r: Option<string>)
    requires r.Some? ==> NoNewline(r.value)
    ensures NoNewline(ResultText(r))
  {
  }

  lemma {:induction false} HeadsAreOneLine()
    ensures NoNewline(RESPONSE_HEAD) && NoNewline(OK_HEAD) && NoNewline(EVENT_HEAD) && NoNewline(DATA_HEAD)
    ensures NoNewline("true") && NoNewline("false")
  {
  }

  /** JSON text without raw newlines, as the encoder writes it. */
  predicate RawTextIsOneLine(m: Message) {
    match m
    case Response(_, _, result, _) => result.Some? ==> NoNewline(result.value)
    case Event(_, data) => NoNewline(data)
  }

  /** Whatever its strings hold, a message is one line: its only newline is the last character. */
  lemma {:induction false} EncodedIsOneLine(m: Message) returns (body: string)
    requires RawTextIsOneLine(m)
    ensures Encode(m) == body + "}\n" && NoNewline(body)
  {
    HeadsAreOneLine();
    match m
    case Response(id, ok, result, error) =>
      var word := if ok then "true" else "false";
      EscapeIsOneLine(id);
      ResultIsOneLine(result);
      ErrorIsOneLine(error);
      body := (RESPONSE_HEAD + Escape(id)) + (OK_HEAD + word) + (ResultText(result) + ErrorText(error));
      JoinedLine(RESPONSE_HEAD, Escape(id), OK_HEAD, word, ResultText(result) + ErrorText(error));
    case Event(topic, data) =>
      EscapeIsOneLine(topic);
      body := (EVENT_HEAD + Escape(topic)) + (DATA_HEAD + data);
      JoinedLine(EVENT_HEAD, Escape(topic), DATA_HEAD, data, "");
      assert body + "" == body;
  }

  /** A message fits exactly when the frame writer takes its encoded bytes. */
  lemma {:induction false} FitsIsFramed(m: Message, body: Bytes)
    requires |body| + 1 == Utf8Len(Encode(m))
    ensures Fits(m) <==> EncodeFramed(body).Ok?
  {
    EncodedLenIs(m);
  }

  /** A request id or command name is a usable name without any white space in it. */
  lemma {:induction false} TokenMeaning(s: string, maxBytes: nat)
    requires maxBytes <= MAX_TARGET_TOKEN_LENGTH
    ensures BoundedToken(s, maxBytes) <==>
            && CheckedName(s) == Ok(s) && Utf8Len(s) <= maxBytes
            && forall i :: 0 <= i < |s| ==> !IsWhitespace(s[i])
  {
    CheckedNameFixpoint(s);
    LenAtLeastCount(s);
  }

  lemma {:induction false} LenAtLeastCount(s: string)
    ensures Utf8Len(s) >= |s|
  {
    if s == "" {
    } else {
      LenAtLeastCount(s[1..]);
    }
  }

  /** A reply is passed on only under the id of the request, and only if that is an id a client could have sent. */
  lemma {:induction false} TrustedExactly(reply: Message, requestId: string)
    ensures Sanitized(reply, requestId) == reply <==>
            || (reply.Response? && reply.id == requestId && ValidRequestId(requestId))
            || reply == ErrResponse(requestId, IpcProtocolError, MalformedReplyId)
    ensures Sanitized(reply, requestId).Response? && Sanitized(reply, requestId).id == requestId
  {
  }
}
