/**
 * One serial lane per connection, and the shutdown that waits for them (`src/server/command_lanes.rs`,
 * `src/server/command_executor.rs`).
 */
module Lanes {
  import opened Wrappers
  import opened Codec
  import opened Sessions

  const LANE_DEPTH: nat := 32

  // ------------------------------------------------------------------
  // One connection, step by step
  // ------------------------------------------------------------------

  /** What happened in the lane task, command by command; commands are known by their place in `sent`. */
  datatype Mark = Began(command: nat) | Ended(command: nat)

  /** A line queued for the client, and the command it answers. */
  datatype Line = Line(command: nat, message: Message)

  datatype Conn = Conn(
    /** Dispatches accepted by the lane, in the order sent. */
    sent: seq<Dispatch>,
    queue: seq<nat>,
    running: Option<nat>,
    marks: seq<Mark>,
    /** What became of each command whose reply handle is gone. */
    replies: map<nat, Option<Message>>,
    /** Commands whose forwarder is still to act. */
    waiting: set<nat>,
    out: seq<Line>,
    /** The session still holds the lane's sender. */
    open: bool,
    /** The lane task has not ended. */
    alive: bool,
    /** It ended with a command half done. */
    panicked: bool)

  const NEW_CONN := Conn([], [], None, [], map[], {}, [], true, true, false)

  datatype ConnStep =
    | Send(d: Dispatch)
    | Begin
    | Finish(reply: Message)
    | Forward(command: nat)
    | HangUp
    | Retire
    | Panic

  predicate ConnEnabled(c: Conn, step: ConnStep) {
    match step
    case Send(d) => c.open && c.alive && |c.queue| < LANE_DEPTH && ValidRequestId(d.id)
    case Begin => c.alive && c.running.None? && c.queue != []
    case Finish(_) => c.alive && c.running.Some?
    case Forward(k) => k in c.waiting && k in c.replies && k < |c.sent|
    case HangUp => c.open
    case Retire => c.alive && !c.open && c.queue == [] && c.running.None?
    case Panic => c.alive && c.running.Some?
  }

  function Lines(k: nat, messages: seq<Message>): (r: seq<Line>)
    ensures |r| == |messages| && forall i :: 0 <= i < |r| ==> r[i] == Line(k, messages[i])
  {
    seq(|messages|, i requires 0 <= i < |messages| => Line(k, messages[i]))
  }

  /** The task is gone: the running command and everything behind it lose their reply handles. */
  function Abandoned(c: Conn): map<nat, Option<Message>>
  {
    var lost := (set k | k in c.queue) + (if c.running.Some? then {c.running.value} else {});
    c.replies + map k | k in lost :: None
  }

  function ConnAfter(c: Conn, step: ConnStep): Conn
    requires ConnEnabled(c, step)
  {
    match step
    case Send(d) => c.(sent := c.sent + [d], queue := c.queue + [|c.sent|], waiting := c.waiting + {|c.sent|})
    case Begin => c.(queue := c.queue[1..], running := Some(c.queue[0]), marks := c.marks + [Began(c.queue[0])])
    case Finish(reply) =>
      c.(running := None, marks := c.marks + [Ended(c.running.value)],
         replies := c.replies[c.running.value := Some(reply)])
    case Forward(k) =>
      c.(waiting := c.waiting - {k}, out := c.out + Lines(k, Delivered(c.sent[k].purpose, c.sent[k].id, c.replies[k])))
    case HangUp => c.(open := false)
    case Retire => c.(alive := false)
    case Panic => c.(alive := false, panicked := true, replies := Abandoned(c), running := None, queue := [])
  }

  /** `n` commands run one after another, in the order sent. */
  function Serial(n: nat): (r: seq<Mark>)
    ensures |r| == 2 * n
  {
    if n == 0 then [] else Serial(n - 1) + [Began(n - 1), Ended(n - 1)]
  }

  /** The commands from `first` up to `limit`. */
  ghost predicate IsRange(s: seq<nat>, first: nat, limit: nat) {
    first <= limit && |s| == limit - first && forall i :: 0 <= i < |s| ==> s[i] == first + i
  }

  function Begun(c: Conn): nat {
    (|c.marks| + 1) / 2
  }

  /** The lane task has begun a prefix of the commands, one at a time, and the rest wait in order. */
  ghost predicate InOrder(c: Conn) {
    && Begun(c) <= |c.sent|
    && (match c.running
        case None =>
          if c.panicked then Begun(c) > 0 && c.marks == Serial(Begun(c) - 1) + [Began(Begun(c) - 1)]
          else c.marks == Serial(Begun(c))
        case Some(k) => c.alive && k + 1 == Begun(c) && c.marks == Serial(k) + [Began(k)])
    && (if c.panicked then !c.alive && c.queue == [] && c.running.None? else IsRange(c.queue, Begun(c), |c.sent|))
    && (!c.alive ==> c.queue == [] && c.running.None?)
  }

  ghost predicate Resolved(c: Conn, k: nat) {
    k in c.replies
  }

  ghost predicate Pending(c: Conn, k: nat) {
    c.alive && (k in c.queue || c.running == Some(k))
  }

  /** Every command is pending or resolved, not both, and a pending one is still waited for. */
  ghost predicate Accounted(c: Conn) {
    && (forall k :: k in c.replies || k in c.waiting ==> k < |c.sent|)
    && (forall k :: 0 <= k < |c.sent| ==> (Pending(c, k) <==> !Resolved(c, k)))
    && (forall k :: 0 <= k < |c.sent| && Pending(c, k) ==> k in c.waiting)
    && (forall k :: 0 <= k < |c.sent| ==> ValidRequestId(c.sent[k].id))
    && (forall k :: k in c.replies && c.replies[k].None? ==> c.panicked)
  }

  /** A line for every command no longer waited for, and for no other. */
  ghost predicate Answered(c: Conn) {
    forall k :: 0 <= k < |c.sent| ==>
      LinesFor(c.out, k) == Due(c.sent[k], k in c.waiting, c.replies, k)
  }

  function Due(d: Dispatch, waiting: bool, replies: map<nat, Option<Message>>, k: nat): seq<Message> {
    if waiting || k !in replies then [] else Delivered(d.purpose, d.id, replies[k])
  }

  function LinesFor(out: seq<Line>, k: nat): seq<Message> {
    if out == [] then []
    else LinesFor(out[..|out| - 1], k) + if out[|out| - 1].command == k then [out[|out| - 1].message] else []
  }

  ghost predicate ConnInv(c: Conn) {
    InOrder(c) && Accounted(c) && Answered(c) && forall i :: 0 <= i < |c.out| ==> c.out[i].command < |c.sent|
  }

  lemma {:induction false} LinesForAppend(out: seq<Line>, more: seq<Line>, k: nat)
    ensures LinesFor(out + more, k) == LinesFor(out, k) + LinesFor(more, k)
  {
    if more == [] {
      assert out + more == out;
    } else {
      var n := |more| - 1;
      assert (out + more)[..|out| + n] == out + more[..n];
      LinesForAppend(out, more[..n], k);
    }
  }

  lemma {:induction false} LinesForTagged(k: nat, messages: seq<Message>, j: nat)
    ensures LinesFor(Lines(k, messages), j) == if j == k then messages else []
  {
    if messages == [] {
    } else {
      var n := |messages| - 1;
      assert Lines(k, messages)[..n] == Lines(k, messages[..n]);
      LinesForTagged(k, messages[..n], j);
      assert messages[..n] + [messages[n]] == messages;
    }
  }

  lemma {:induction false} LinesForNew(out: seq<Line>, k: nat)
    requires forall i :: 0 <= i < |out| ==> out[i].command < k
    ensures LinesFor(out, k) == []
  {
    if out == [] {
    } else {
      LinesForNew(out[..|out| - 1], k);
    }
  }

  // ------------------------------------------------------------------
  // Steps keep the rules
  // ------------------------------------------------------------------

  lemma {:induction false} SendKeeps(c: Conn, d: Dispatch)
    requires ConnInv(c) && ConnEnabled(c, Send(d))
    ensures ConnInv(ConnAfter(c, Send(d)))
  {
    var u := ConnAfter(c, Send(d));
    LinesForNew(c.out, |c.sent|);
    assert |c.sent| in u.queue by { assert u.queue[|c.queue|] == |c.sent|; }
    forall k | 0 <= k < |u.sent| ensures Pending(u, k) <==> !Resolved(u, k) {
      if k < |c.sent| { assert Pending(u, k) <==> Pending(c, k); }
    }
  }

  lemma {:induction false} BeginKeeps(c: Conn)
    requires ConnInv(c) && ConnEnabled(c, Begin)
    ensures ConnInv(ConnAfter(c, Begin))
  {
    var u := ConnAfter(c, Begin);
    assert c.queue == [c.queue[0]] + u.queue;
    forall k | 0 <= k < |u.sent| ensures Pending(u, k) <==> Pending(c, k) {}
  }

  lemma {:induction false} FinishAccounts(c: Conn, reply: Message)
    requires InOrder(c) && Accounted(c) && ConnEnabled(c, Finish(reply))
    ensures Accounted(ConnAfter(c, Finish(reply)))
    ensures c.running.value in c.waiting
  {
    var u, n := ConnAfter(c, Finish(reply)), c.running.value;
    assert Pending(c, n);
    forall k: nat ensures Pending(u, k) <==> Pending(c, k) && k != n {}
    forall k: nat ensures Resolved(u, k) <==> Resolved(c, k) || k == n {}
  }

  lemma {:induction false} FinishOrder(c: Conn, reply: Message)
    requires InOrder(c) && ConnEnabled(c, Finish(reply))
    ensures InOrder(ConnAfter(c, Finish(reply)))
  {
    var u, n := ConnAfter(c, Finish(reply)), c.running.value;
    assert u.marks == Serial(n + 1) && Begun(u) == n + 1;
  }

  lemma {:induction false} FinishKeeps(c: Conn, reply: Message)
    requires ConnInv(c) && ConnEnabled(c, Finish(reply))
    ensures ConnInv(ConnAfter(c, Finish(reply)))
  {
    var u := ConnAfter(c, Finish(reply));
    FinishAccounts(c, reply);
    FinishOrder(c, reply);
    forall k | 0 <= k < |u.sent| ensures LinesFor(u.out, k) == Due(u.sent[k], k in u.waiting, u.replies, k) {
      assert LinesFor(c.out, k) == Due(c.sent[k], k in c.waiting, c.replies, k);
    }
  }

  lemma {:induction false} ForwardAnswers(c: Conn, n: nat)
    requires Answered(c) && ConnEnabled(c, Forward(n))
    ensures Answered(ConnAfter(c, Forward(n)))
  {
    var u := ConnAfter(c, Forward(n));
    var messages := Delivered(c.sent[n].purpose, c.sent[n].id, c.replies[n]);
    forall k | 0 <= k < |u.sent| ensures LinesFor(u.out, k) == Due(u.sent[k], k in u.waiting, u.replies, k) {
      LinesForAppend(c.out, Lines(n, messages), k);
      LinesForTagged(n, messages, k);
      assert LinesFor(c.out, k) == Due(c.sent[k], k in c.waiting, c.replies, k);
      if k == n { assert [] + messages == messages; }
    }
  }

  lemma {:induction false} ForwardAccounts(c: Conn, n: nat)
    requires Accounted(c) && ConnEnabled(c, Forward(n))
    ensures Accounted(ConnAfter(c, Forward(n)))
  {
    var u := ConnAfter(c, Forward(n));
    assert Resolved(c, n) && !Pending(c, n);
    forall k: nat ensures (Pending(u, k) <==> Pending(c, k)) && (Resolved(u, k) <==> Resolved(c, k)) {}
  }

  lemma {:induction false} ForwardKeeps(c: Conn, n: nat)
    requires ConnInv(c) && ConnEnabled(c, Forward(n))
    ensures ConnInv(ConnAfter(c, Forward(n)))
  {
    var u := ConnAfter(c, Forward(n));
    ForwardAnswers(c, n);
    ForwardAccounts(c, n);
    SameOrder(c, u);
  }

  lemma {:induction false} SameOrder(c: Conn, u: Conn)
    requires InOrder(c) && u == c.(waiting := u.waiting, out := u.out)
    ensures InOrder(u)
  {
  }

  lemma {:induction false} PanicResolves(c: Conn)
    requires InOrder(c) && Accounted(c) && ConnEnabled(c, Panic)
    ensures Accounted(ConnAfter(c, Panic))
    ensures forall k :: k in c.replies ==> k in Abandoned(c) && Abandoned(c)[k] == c.replies[k]
  {
    var u := ConnAfter(c, Panic);
    forall k | 0 <= k < |u.sent| ensures Resolved(u, k) {
      assert Pending(c, k) <==> !Resolved(c, k);
    }
    forall k | k in c.replies ensures k in Abandoned(c) && Abandoned(c)[k] == c.replies[k] {
      assert Resolved(c, k) && !Pending(c, k);
    }
  }

  lemma {:induction false} PanicKeeps(c: Conn)
    requires ConnInv(c) && ConnEnabled(c, Panic)
    ensures ConnInv(ConnAfter(c, Panic))
  {
    var u := ConnAfter(c, Panic);
    PanicResolves(c);
    forall k | 0 <= k < |u.sent|
      ensures LinesFor(u.out, k) == Due(u.sent[k], k in u.waiting, u.replies, k)
    {
      assert Pending(c, k) <==> !Resolved(c, k);
    }
  }

  lemma {:induction false} EndingAccounts(c: Conn, u: Conn)
    requires Accounted(c) && u == c.(open := u.open, alive := u.alive)
    requires u.alive == c.alive || (c.queue == [] && c.running.None?)
    ensures Accounted(u)
  {
    forall k: nat ensures (Pending(u, k) <==> Pending(c, k)) && (Resolved(u, k) <==> Resolved(c, k)) {}
  }

  lemma {:induction false} EndingOrder(c: Conn, u: Conn)
    requires InOrder(c) && u == c.(open := u.open, alive := u.alive)
    requires u.alive == c.alive || (!u.alive && c.queue == [] && c.running.None?)
    ensures InOrder(u)
  {
  }

  lemma {:induction false} EndingKeeps(c: Conn, step: ConnStep)
    requires ConnInv(c) && ConnEnabled(c, step) && (step.HangUp? || step.Retire?)
    ensures ConnInv(ConnAfter(c, step))
  {
    var u := ConnAfter(c, step);
    EndingAccounts(c, u);
    EndingOrder(c, u);
    forall k | 0 <= k < |u.sent| ensures LinesFor(u.out, k) == Due(u.sent[k], k in u.waiting, u.replies, k) {
      assert LinesFor(c.out, k) == Due(c.sent[k], k in c.waiting, c.replies, k);
    }
  }

  lemma {:induction false} ConnStepKeeps(c: Conn, step: ConnStep)
    requires ConnInv(c) && ConnEnabled(c, step)
    ensures ConnInv(ConnAfter(c, step))
  {
    match step
    case Send(d) => SendKeeps(c, d);
    case Begin => BeginKeeps(c);
    case Finish(reply) => FinishKeeps(c, reply);
    case Forward(k) => ForwardKeeps(c, k);
    case Panic => PanicKeeps(c);
    case _ => EndingKeeps(c, step);
  }

  lemma {:induction false} EndedLane(c: Conn)
    requires ConnInv(c) && !c.alive
    ensures forall k :: 0 <= k < |c.sent| ==> k in c.replies
    ensures !c.panicked ==> c.marks == Serial(|c.sent|) && forall k :: 0 <= k < |c.sent| ==> c.replies[k].Some?
  {
    forall k | 0 <= k < |c.sent| ensures k in c.replies { assert !Pending(c, k) && Resolved(c, k); }
  }

  lemma {:induction false} NewConnInv()
    ensures ConnInv(NEW_CONN)
  {
    var c := NEW_CONN;
    assert |c.marks| == 0 && |c.sent| == 0 && Begun(c) == 0;
    assert InOrder(c) && Accounted(c);
  }

  // ------------------------------------------------------------------
  // The serve loop
  // ------------------------------------------------------------------

  /** A run of one connection's steps, if each is enabled where it comes. */
  function ConnRun(c: Conn, steps: seq<ConnStep>): Option<Conn> {
    if steps == [] then Some(c)
    else
      match ConnRun(c, steps[..|steps| - 1])
      case None => None
      case Some(before) =>
        if ConnEnabled(before, steps[|steps| - 1]) then Some(ConnAfter(before, steps[|steps| - 1])) else None
  }

  lemma {:induction false} ConnRunSnoc(c: Conn, steps: seq<ConnStep>, before: Conn, step: ConnStep)
    requires ConnRun(c, steps) == Some(before) && ConnEnabled(before, step)
    ensures ConnRun(c, steps + [step]) == Some(ConnAfter(before, step))
  {
    assert (steps + [step])[..|steps|] == steps;
  }

  /** Each command begun so far has been answered by the handler. */
  ghost predicate HandledSoFar(c: Conn, handle: Dispatch -> Message) {
    Begun(c) <= |c.sent| && forall k :: 0 <= k < Begun(c) ==> k in c.replies && c.replies[k] == Some(handle(c.sent[k]))
  }

  /** Between commands, with the session still connected. */
  predicate Idle(c: Conn) {
    c.open && c.alive && c.running.None? && !c.panicked
  }

  lemma {:induction false} HeadIsNext(c: Conn)
    requires ConnInv(c) && c.alive && c.running.None? && c.queue != []
    ensures c.queue[0] == Begun(c) < |c.sent|
  {
  }

  /** Beginning the head command and finishing it with the handler's reply. */
  lemma {:induction false} HandledNext(c: Conn, handle: Dispatch -> Message)
    requires ConnInv(c) && Idle(c) && c.queue != [] && HandledSoFar(c, handle)
    ensures c.queue[0] < |c.sent|
    ensures var begun := ConnAfter(c, Begin);
            var reply := Finish(handle(c.sent[c.queue[0]]));
            && ConnEnabled(begun, reply)
            && var after := ConnAfter(begun, reply);
            && Idle(after) && after.sent == c.sent && after.queue == c.queue[1..] && HandledSoFar(after, handle)
  {
    HeadIsNext(c);
    var begun := ConnAfter(c, Begin);
    var after := ConnAfter(begun, Finish(handle(c.sent[c.queue[0]])));
    assert Begun(after) == Begun(c) + 1 by { assert |after.marks| == |c.marks| + 2; }
  }

  /** The end of an idle, empty lane. */
  lemma {:induction false} ServedAll(c: Conn, handle: Dispatch -> Message)
    requires ConnInv(c) && Idle(c) && c.queue == [] && HandledSoFar(c, handle)
    ensures var hungUp := ConnAfter(c, HangUp);
            && ConnEnabled(hungUp, Retire)
            && var after := ConnAfter(hungUp, Retire);
            && !after.alive && !after.panicked && after.sent == c.sent && after.marks == Serial(|c.sent|)
            && forall k :: 0 <= k < |c.sent| ==> k in after.replies && after.replies[k] == Some(handle(c.sent[k]))
  {
  }

  class CommandLane {
    const origin: Conn
    var conn: Conn
    /** The steps taken since the lane was opened. */
    ghost var steps: seq<ConnStep>

    constructor (conn: Conn)
      requires ConnInv(conn)
      ensures Valid() && this.conn == origin == conn && steps == []
    {
      this.origin, this.conn, this.steps := conn, conn, [];
    }

    ghost predicate Valid()
      reads this
    {
      ConnInv(conn) && ConnRun(origin, steps) == Some(conn)
    }

    /** One step, recorded. */
    method Take(step: ConnStep)
      requires Valid() && ConnEnabled(conn, step)
      modifies this
      ensures Valid() && conn == ConnAfter(old(conn), step) && steps == old(steps) + [step]
    {
      ConnStepKeeps(conn, step);
      ConnRunSnoc(origin, steps, conn, step);
      conn, steps := ConnAfter(conn, step), steps + [step];
    }

    /** Takes a dispatch if there is room; a full lane makes its own sender wait. */
    method Offer(d: Dispatch) returns (taken: bool)
      requires Valid() && Idle(conn) && ValidRequestId(d.id)
      modifies this
      ensures Valid() && (taken <==> |old(conn).queue| < LANE_DEPTH)
      ensures conn == if taken then ConnAfter(old(conn), Send(d)) else old(conn)
    {
      taken := |conn.queue| < LANE_DEPTH;
      if taken { Take(Send(d)); }
    }

    /**
     * Serve one connection: `incoming` is everything its session will send and `pace` how much of
     * it arrives while each command runs. One command is finished and answered before the next is
     * looked at, and the lane ends when the session has hung up and nothing waits. Whatever the
     * pace, every dispatch is handled, in the order sent.
     */
    method Serve(incoming: seq<Dispatch>, pace: seq<nat>, handle: Dispatch -> Message)
      requires Valid() && Idle(conn) && conn.sent == [] && conn.queue == [] && conn.marks == []
      requires forall d :: d in incoming ==> ValidRequestId(d.id)
      modifies this
      ensures Valid() && !conn.alive && !conn.panicked && conn.sent == incoming && conn.marks == Serial(|incoming|)
      ensures forall k :: 0 <= k < |incoming| ==> k in conn.replies && conn.replies[k] == Some(handle(incoming[k]))
    {
      var arrived, round := 0, 0;
      while arrived < |incoming| || conn.queue != []
        invariant Valid() && Idle(conn) && HandledSoFar(conn, handle)
        invariant 0 <= arrived <= |incoming| && conn.sent == incoming[..arrived]
        decreases 2 * (|incoming| - arrived) + |conn.queue|
      {
        arrived := Receive(incoming, arrived, if round < |pace| then pace[round] else 0, handle);
        round := round + 1;
        HandleNext(handle);
      }
      assert incoming[..arrived] == incoming;
      ServedAll(conn, handle);
      Take(HangUp);
      Take(Retire);
    }

    /** Arrivals, as many as the pace and the room allow, and at least one if nothing is waiting. */
    method Receive(incoming: seq<Dispatch>, arrived: nat, many: nat, ghost handle: Dispatch -> Message)
      returns (now: nat)
      requires Valid() && Idle(conn) && HandledSoFar(conn, handle)
      requires arrived <= |incoming| && conn.sent == incoming[..arrived]
      requires arrived < |incoming| || conn.queue != []
      requires forall d :: d in incoming ==> ValidRequestId(d.id)
      modifies this
      ensures Valid() && Idle(conn) && HandledSoFar(conn, handle)
      ensures arrived <= now <= |incoming| && conn.sent == incoming[..now] && conn.queue != []
      ensures |conn.queue| == |old(conn).queue| + now - arrived
    {
      now := arrived;
      while now < |incoming| && (now - arrived < many || conn.queue == [])
        invariant Valid() && Idle(conn) && HandledSoFar(conn, handle)
        invariant arrived <= now <= |incoming| && conn.sent == incoming[..now]
        invariant |conn.queue| == |old(conn).queue| + now - arrived
      {
        assert incoming[now] in incoming;
        if |conn.queue| < LANE_DEPTH { SentKeepsHandled(conn, incoming[now], handle); }
        var taken := Offer(incoming[now]);
        if !taken { break; }
        now := now + 1;
      }
    }

    /** The command at the head of the lane, run to completion and answered. */
    method HandleNext(handle: Dispatch -> Message)
      requires Valid() && Idle(conn) && conn.queue != [] && HandledSoFar(conn, handle)
      modifies this
      ensures Valid() && Idle(conn) && HandledSoFar(conn, handle)
      ensures conn.sent == old(conn).sent && conn.queue == old(conn).queue[1..]
    {
      HandledNext(conn, handle);
      var d := conn.sent[conn.queue[0]];
      Take(Begin);
      Take(Finish(handle(d)));
    }
  }

  lemma {:induction false} SentKeepsHandled(c: Conn, d: Dispatch, handle: Dispatch -> Message)
    requires Idle(c) && HandledSoFar(c, handle) && |c.queue| < LANE_DEPTH && ValidRequestId(d.id)
    ensures ConnEnabled(c, Send(d))
    ensures var u := ConnAfter(c, Send(d));
            Idle(u) && HandledSoFar(u, handle) && u.sent == c.sent + [d] && |u.queue| == |c.queue| + 1
  {
  }

  // ------------------------------------------------------------------
  // All connections, and the drain
  // ------------------------------------------------------------------

  datatype System = System(
    conns: map<nat, Conn>,
    /** The lane tasks a drain would wait for. */
    tasks: set<nat>,
    /** The set a drain took, and what it has still to join. */
    taken: Option<set<nat>>,
    left: set<nat>,
    drained: bool)

  datatype Step =
    | OpenLane(lane: nat)
    | On(lane: nat, step: ConnStep)
    | StartDrain
    | Join(lane: nat)
    | DrainReturns

  predicate Enabled(s: System, step: Step) {
    match step
    case OpenLane(l) => l !in s.conns
    case On(l, step) => l in s.conns && ConnEnabled(s.conns[l], step)
    case StartDrain => s.taken.None?
    case Join(l) => l in s.left && l in s.conns && !s.conns[l].alive
    case DrainReturns => s.taken.Some? && s.left == {} && !s.drained
  }

  function After(s: System, step: Step): System
    requires Enabled(s, step)
  {
    match step
    case OpenLane(l) => s.(conns := s.conns[l := NEW_CONN], tasks := s.tasks + {l})
    case On(l, step) => s.(conns := s.conns[l := ConnAfter(s.conns[l], step)])
    case StartDrain => s.(taken := Some(s.tasks), left := s.tasks, tasks := {})
    case Join(l) => s.(left := s.left - {l})
    case DrainReturns => s.(drained := true)
  }

  ghost predicate Run(states: seq<System>, steps: seq<Step>) {
    && |states| == |steps| + 1
    && states[0] == System(map[], {}, None, {}, false)
    && forall i :: 0 <= i < |steps| ==> Enabled(states[i], steps[i]) && states[i + 1] == After(states[i], steps[i])
  }

  ghost predicate Inv(s: System) {
    && (forall l :: l in s.conns ==> ConnInv(s.conns[l]))
    && (s.taken.None? ==> s.tasks == s.conns.Keys && !s.drained)
    && (s.taken.Some? ==>
          && s.taken.value <= s.conns.Keys && s.left <= s.taken.value
          && (forall l :: l in s.taken.value && l !in s.left ==> !s.conns[l].alive))
    && (s.drained ==> s.left == {})
  }

  lemma {:induction false} AddedConn(s: System, lane: nat, c: Conn)
    requires Inv(s) && lane !in s.conns && ConnInv(c)
    ensures Inv(s.(conns := s.conns[lane := c], tasks := s.tasks + {lane}))
  {
  }

  lemma {:induction false} OpenKeepsInv(s: System, lane: nat)
    requires Inv(s) && Enabled(s, OpenLane(lane))
    ensures Inv(After(s, OpenLane(lane)))
  {
    NewConnInv();
    AddedConn(s, lane, NEW_CONN);
  }

  lemma {:induction false} OnKeepsInv(s: System, lane: nat, step: ConnStep)
    requires Inv(s) && Enabled(s, On(lane, step))
    ensures Inv(After(s, On(lane, step)))
  {
    var u := After(s, On(lane, step));
    ConnStepKeeps(s.conns[lane], step);
    assert u.conns.Keys == s.conns.Keys;
    assert !s.conns[lane].alive ==> !u.conns[lane].alive;
    forall l | l in u.conns ensures ConnInv(u.conns[l]) {
      if l != lane { assert u.conns[l] == s.conns[l]; }
    }
  }

  lemma {:induction false} StepKeepsInv(s: System, step: Step)
    requires Inv(s) && Enabled(s, step)
    ensures Inv(After(s, step))
    ensures s.taken.Some? ==> After(s, step).taken == s.taken
  {
    match step
    case OpenLane(l) => OpenKeepsInv(s, l);
    case On(l, conn) => OnKeepsInv(s, l, conn);
    case _ =>
      assert After(s, step).conns == s.conns;
  }

  lemma {:induction false} RunKeepsInv(states: seq<System>, steps: seq<Step>, n: nat)
    requires Run(states, steps) && n <= |steps|
    ensures Inv(states[n])
    decreases n
  {
    if n == 0 {
    } else {
      RunKeepsInv(states, steps, n - 1);
      StepKeepsInv(states[n - 1], steps[n - 1]);
    }
  }

  lemma {:induction false} TakenStays(states: seq<System>, steps: seq<Step>, j: nat, n: nat)
    requires Run(states, steps) && j < n <= |steps| && steps[j].StartDrain?
    ensures states[n].taken == Some(states[j].conns.Keys)
    decreases n
  {
    RunKeepsInv(states, steps, n - 1);
    if j + 1 == n {
    } else {
      TakenStays(states, steps, j, n - 1);
      StepKeepsInv(states[n - 1], steps[n - 1]);
    }
  }

  lemma {:induction false} SerialPrefix(n: nat, m: nat)
    requires n <= m
    ensures Serial(n) <= Serial(m)
  {
    if n == m {
    } else {
      SerialPrefix(n, m - 1);
    }
  }

  // ------------------------------------------------------------------
  // Main results
  // ------------------------------------------------------------------

  /** One connection's commands run in the order sent, each finished before the next begins. */
  lemma {:induction false} CommandsRunInOrder(states: seq<System>, steps: seq<Step>, lane: nat)
    requires Run(states, steps) && lane in states[|steps|].conns
    ensures var c := states[|steps|].conns[lane];
            c.marks <= Serial(|c.sent|)
  {
    RunKeepsInv(states, steps, |steps|);
    var c := states[|steps|].conns[lane];
    var n := Begun(c);
    SerialPrefix(n, |c.sent|);
    if n > 0 { assert Serial(n - 1) + [Began(n - 1)] <= Serial(n); }
  }

  /**
   * Every request a lane accepted is answered exactly once: no line while its forwarder waits, and
   * then one response, with the request's own id and within the line limit, even if the handler
   * panicked, mislabelled its reply or overflowed. Once the lane task has ended no forwarder can
   * be stuck: each one still waiting already has something to forward.
   */
  lemma {:induction false} OneResponseEach(states: seq<System>, steps: seq<Step>, lane: nat, k: nat)
    requires Run(states, steps) && lane in states[|steps|].conns && k < |states[|steps|].conns[lane].sent|
    requires states[|steps|].conns[lane].sent[k].purpose == Request
    ensures var c := states[|steps|].conns[lane];
            var lines := LinesFor(c.out, k);
            if k in c.waiting then lines == [] && (!c.alive ==> ConnEnabled(c, Forward(k)))
            else |lines| == 1 && lines[0].Response? && lines[0].id == c.sent[k].id && Fits(lines[0])
  {
    RunKeepsInv(states, steps, |steps|);
    var c := states[|steps|].conns[lane];
    assert Pending(c, k) <==> !Resolved(c, k);
    if k in c.replies { OneResponsePerRequest(c.sent[k].id, c.replies[k]); }
  }

  /**
   * When the drain returns, every lane opened before it started has ended. A lane that did not
   * panic ran every command it had accepted, in order and to the end, and each has its reply;
   * in one that did, every command still had its reply handle resolved.
   */
  lemma {:induction false} DrainWaitsForEveryCommand(states: seq<System>, steps: seq<Step>, j: nat, lane: nat)
    requires Run(states, steps) && j < |steps| && steps[j].StartDrain?
    requires states[|steps|].drained && lane in states[j].conns
    ensures lane in states[|steps|].conns
    ensures var c := states[|steps|].conns[lane];
            && !c.alive
            && (forall k :: 0 <= k < |c.sent| ==> k in c.replies)
            && (!c.panicked ==> c.marks == Serial(|c.sent|) && forall k :: 0 <= k < |c.sent| ==> c.replies[k].Some?)
  {
    TakenStays(states, steps, j, |steps|);
    RunKeepsInv(states, steps, |steps|);
    EndedLane(states[|steps|].conns[lane]);
  }

  /** A drain cannot return while a lane it took still has a command queued or running. */
  lemma {:induction false} DrainBlocksOnWork(states: seq<System>, steps: seq<Step>, j: nat, lane: nat, k: nat)
    requires Run(states, steps) && j < |steps| && steps[j].StartDrain? && lane in states[j].conns
    requires lane in states[|steps|].conns && k < |states[|steps|].conns[lane].sent|
    requires Pending(states[|steps|].conns[lane], k)
    ensures !Enabled(states[|steps|], DrainReturns)
  {
    TakenStays(states, steps, j, |steps|);
    RunKeepsInv(states, steps, |steps|);
  }
}
