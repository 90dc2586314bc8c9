/** Matching OBS's responses to the requests they answer (`src/obs/client.rs`, `src/obs/requests.rs`). */
module ObsClient {
  import opened Wrappers
  import opened Decimal

  /** The request counter is 64 bits wide, shared by every connection, and wraps. */
  const COUNTER_RANGE: nat := 0x1_0000_0000_0000_0000

  // ------------------------------------------------------------------
  // Request ids
  // ------------------------------------------------------------------

  function Zeros(n: nat): (s: string)
    ensures |s| == n && AllDigits(s)
  {
    if n == 0 then "" else Zeros(n - 1) + "0"
  }

  /** At least six digits, with leading zeros. */
  function Padded(n: nat): (s: string)
    ensures AllDigits(s)
  {
    var digits := Print(n);
    if |digits| < 6 then Zeros(6 - |digits|) + digits else digits
  }

  function RequestId(n: nat): string {
    "obs-" + Padded(n % COUNTER_RANGE)
  }

  lemma {:induction false} ValueOfPadding(k: nat, digits: string)
    requires AllDigits(digits)
    ensures Value(Zeros(k) + digits) == Value(digits)
  {
    if digits == "" {
      assert Zeros(k) + digits == Zeros(k);
      ValueOfZeros(k);
    } else {
      var shorter := digits[..|digits| - 1];
      ValueOfPadding(k, shorter);
      assert (Zeros(k) + digits)[..k + |digits| - 1] == Zeros(k) + shorter;
    }
  }

  lemma {:induction false} ValueOfZeros(k: nat)
    ensures Value(Zeros(k)) == 0
  {
    if k == 0 {
    } else {
      ValueOfZeros(k - 1);
      assert Zeros(k)[..k - 1] == Zeros(k - 1);
    }
  }

  lemma {:induction false} ValueOfPadded(n: nat)
    ensures Value(Padded(n)) == n
  {
    ValueOfPrint(n);
    if |Print(n)| < 6 { ValueOfPadding(6 - |Print(n)|, Print(n)); }
  }

  /** Two requests share an id exactly when the counter has come all the way round between them. */
  lemma {:induction false} IdsCollideExactlyWhenWrapped(a: nat, b: nat)
    ensures RequestId(a) == RequestId(b) <==> a % COUNTER_RANGE == b % COUNTER_RANGE
  {
    if RequestId(a) == RequestId(b) {
      assert RequestId(a)[4..] == Padded(a % COUNTER_RANGE) && RequestId(b)[4..] == Padded(b % COUNTER_RANGE);
      ValueOfPadded(a % COUNTER_RANGE);
      ValueOfPadded(b % COUNTER_RANGE);
    }
  }

  /** An id is its prefix and a decimal numeral of at least six digits, padded with zeros only up to six. */
  lemma {:induction false} IdFormat(n: nat)
    ensures RequestId(n)[..4] == "obs-" && AllDigits(RequestId(n)[4..])
    ensures var digits := Print(n % COUNTER_RANGE);
            && |RequestId(n)| == 4 + (if |digits| < 6 then 6 else |digits|)
            && Value(RequestId(n)[4..]) == n % COUNTER_RANGE
  {
    var padded := Padded(n % COUNTER_RANGE);
    assert RequestId(n)[..4] == "obs-" && RequestId(n)[4..] == padded;
    ValueOfPadded(n % COUNTER_RANGE);
  }

  lemma {:induction false} IdsDistinct(a: nat, b: nat, first: nat)
    requires first <= a < first + COUNTER_RANGE && first <= b < first + COUNTER_RANGE && RequestId(a) == RequestId(b)
    ensures a == b
  {
    IdsCollideExactlyWhenWrapped(a, b);
    var qa, qb, r := a / COUNTER_RANGE, b / COUNTER_RANGE, a % COUNTER_RANGE;
    assert a == qa * COUNTER_RANGE + r && b == qb * COUNTER_RANGE + r;
    assert a - b == (qa - qb) * COUNTER_RANGE;
  }

  // ------------------------------------------------------------------
  // The client task
  // ------------------------------------------------------------------

  datatype Reply = Data(text: string) | Refused(comment: string) | EncodeFailed | SendFailed | Closed(reason: string)

  datatype Why = Cancelled | TaskEnded

  /**
   * Requests are known by their number; `pending` holds the reply handle of each request under its id.
   * `answered` and `dropped` record what became of the handles that are gone.
   */
  datatype Task = Task(
    queue: seq<nat>, cancels: seq<string>, pending: map<string, nat>,
    answered: map<nat, Reply>, dropped: map<nat, Why>, running: bool)

  datatype Sending = Sent | CannotEncode | SinkFailed

  function Answer(t: Task, n: nat, r: Reply): Task {
    t.(answered := t.answered[n := r])
  }

  function AllClosed(ns: set<nat>, reason: string): map<nat, Reply> {
    map n | n in ns :: Closed(reason)
  }

  /** Every pending request gets the same error. */
  function FailAll(t: Task, reason: string): Task {
    t.(pending := map[], answered := t.answered + AllClosed(t.pending.Values, reason))
  }

  /** The task returns: whatever is still queued or pending loses its handle. */
  function End(t: Task): Task {
    var lost := (set n | n in t.queue) + t.pending.Values;
    t.(running := false, queue := [], cancels := [], pending := map[],
       dropped := t.dropped + map n | n in lost :: TaskEnded)
  }

  function TakeRequest(t: Task, sending: Sending): Task
    requires t.queue != []
  {
    var n, rest := t.queue[0], t.(queue := t.queue[1..]);
    match sending
    case CannotEncode => Answer(rest, n, EncodeFailed)
    case SinkFailed => End(FailAll(Answer(rest, n, SendFailed), "WebSocket closed"))
    case Sent => rest.(pending := rest.pending[RequestId(n) := n])
  }

  /** Cancelling an id that is not pending does nothing. */
  function TakeCancel(t: Task): Task
    requires t.cancels != []
  {
    var id, rest := t.cancels[0], t.(cancels := t.cancels[1..]);
    if id !in t.pending then rest
    else rest.(pending := t.pending - {id}, dropped := t.dropped[t.pending[id] := Cancelled])
  }

  function TakeResponse(t: Task, id: string, r: Reply): Task {
    if id in t.pending then Answer(t, t.pending[id], r).(pending := t.pending - {id}) else t
  }

  class ClientTask {
    var pending: map<string, nat>
    var answered: map<nat, Reply>
    var dropped: map<nat, Why>

    constructor ()
      ensures pending == map[] && answered == map[] && dropped == map[]
    {
      pending, answered, dropped := map[], map[], map[];
    }

    ghost function Value(queue: seq<nat>, cancels: seq<string>): Task
      reads this
    {
      Task(queue, cancels, pending, answered, dropped, true)
    }

    /** Drain the map, answering as it goes. */
    method FailAllPending(reason: string)
      modifies this
      ensures Value([], []) == FailAll(old(Value([], [])), reason)
    {
      ghost var all := answered + AllClosed(pending.Values, reason);
      while pending != map[]
        invariant dropped == old(dropped)
        invariant answered + AllClosed(pending.Values, reason) == all
        decreases |pending|
      {
        var id :| id in pending.Keys;
        DrainStep(answered, pending, id, reason);
        pending, answered := pending - {id}, answered[pending[id] := Closed(reason)];
      }
      NothingToClose(answered, reason);
    }

    /** One request off the channel; `false` means the client task is over. */
    method HandleRequest(n: nat, rest: seq<nat>, sending: Sending) returns (carryOn: bool)
      modifies this
      ensures carryOn <==> !sending.SinkFailed?
      ensures carryOn ==> Value(rest, []) == TakeRequest(old(Value([n] + rest, [])), sending)
      ensures !carryOn ==> End(Value(rest, [])) == TakeRequest(old(Value([n] + rest, [])), sending)
    {
      assert ([n] + rest)[1..] == rest;
      if sending.CannotEncode? {
        answered := answered[n := EncodeFailed];
        return true;
      }
      if sending.SinkFailed? {
        answered := answered[n := SendFailed];
        FailAllPending("WebSocket closed");
        return false;
      }
      pending := pending[RequestId(n) := n];
      return true;
    }

    method HandleCancel(id: string, rest: seq<string>)
      modifies this
      ensures Value([], rest) == TakeCancel(old(Value([], [id] + rest)))
    {
      assert ([id] + rest)[1..] == rest;
      if id in pending {
        dropped := dropped[pending[id] := Cancelled];
        pending := pending - {id};
      }
    }

    method HandleResponse(id: string, r: Reply)
      modifies this
      ensures Value([], []) == TakeResponse(old(Value([], [])), id, r)
    {
      if id in pending {
        answered := answered[pending[id] := r];
        pending := pending - {id};
      }
    }
  }

  lemma {:induction false} NothingToClose(answered: map<nat, Reply>, reason: string)
    ensures var none: map<string, nat> := map[]; answered + AllClosed(none.Values, reason) == answered
  {
  }

  lemma {:induction false} DrainStep(answered: map<nat, Reply>, pending: map<string, nat>, id: string, reason: string)
    requires id in pending
    ensures answered[pending[id] := Closed(reason)] + AllClosed((pending - {id}).Values, reason)
            == answered + AllClosed(pending.Values, reason)
  {
    Removal(pending, id);
  }

  lemma {:induction false} Removal(m: map<string, nat>, id: string)
    requires id in m
    ensures m.Values == (m - {id}).Values + {m[id]}
  {
    forall n | n in m.Values ensures n in (m - {id}).Values + {m[id]} {
      var k :| k in m && m[k] == n;
      if k != id { assert (m - {id})[k] == n; }
    }
  }

  // ------------------------------------------------------------------
  // Runs
  // ------------------------------------------------------------------

  /** One connection: numbers from `first` up to `issued` have been handed out since it was made. */
  datatype World = World(task: Task, first: nat, issued: nat, submitted: set<nat>, gaveUp: set<nat>)

  datatype Step =
    | Issue
    | Submit(n: nat)
    | GiveUp(n: nat)
    | RequestTaken(sending: Sending)
    | CancelTaken
    | ResponseRead(id: string, reply: Reply)
    | StreamEnded(reason: string)
    | HandlesGone

  predicate Enabled(w: World, step: Step) {
    match step
    case Issue => true
    case Submit(n) => w.task.running && w.first <= n < w.issued && n !in w.submitted
    case GiveUp(n) => n in w.submitted && n !in w.gaveUp
    case RequestTaken(_) => w.task.running && w.task.queue != []
    case CancelTaken => w.task.running && w.task.cancels != []
    case ResponseRead(_, _) => w.task.running
    case StreamEnded(_) => w.task.running
    case HandlesGone => w.task.running && w.task.queue == []
  }

  function After(w: World, step: Step): World
    requires Enabled(w, step)
  {
    var t := w.task;
    match step
    case Issue => w.(issued := w.issued + 1)
    case Submit(n) => w.(task := t.(queue := t.queue + [n]), submitted := w.submitted + {n})
    case GiveUp(n) =>
      w.(task := if t.running then t.(cancels := t.cancels + [RequestId(n)]) else t, gaveUp := w.gaveUp + {n})
    case RequestTaken(sending) => w.(task := TakeRequest(t, sending))
    case CancelTaken => w.(task := TakeCancel(t))
    case ResponseRead(id, reply) => w.(task := TakeResponse(t, id, reply))
    case StreamEnded(reason) => w.(task := End(FailAll(t, reason)))
    case HandlesGone => w.(task := End(t))
  }

  const NEW_TASK := Task([], [], map[], map[], map[], true)

  ghost predicate Run(worlds: seq<World>, steps: seq<Step>) {
    && |worlds| == |steps| + 1
    && worlds[0] == World(NEW_TASK, worlds[0].first, worlds[0].first, {}, {})
    && forall i :: 0 <= i < |steps| ==> Enabled(worlds[i], steps[i]) && worlds[i + 1] == After(worlds[i], steps[i])
  }

  predicate IsPending(t: Task, n: nat) {
    RequestId(n) in t.pending && t.pending[RequestId(n)] == n
  }

  /** The four places a submitted request can be. */
  datatype Place = Queued | Pending | Answered | Dropped

  predicate Is(t: Task, n: nat, at: Place) {
    match at
    case Queued => n in t.queue
    case Pending => IsPending(t, n)
    case Answered => n in t.answered
    case Dropped => n in t.dropped
  }

  ghost predicate ExactlyOnePlace(t: Task, n: nat) {
    exists at :: Is(t, n, at) && forall other :: Is(t, n, other) ==> other == at
  }

  ghost predicate Nowhere(t: Task, n: nat) {
    forall at :: !Is(t, n, at)
  }

  ghost predicate Places(t: Task, submitted: set<nat>) {
    && (forall n :: if n in submitted then ExactlyOnePlace(t, n) else Nowhere(t, n))
    && (forall i, j :: 0 <= i < j < |t.queue| ==> t.queue[i] != t.queue[j])
    && (forall id :: id in t.pending ==> id == RequestId(t.pending[id]))
  }

  ghost predicate Inv(w: World) {
    && Places(w.task, w.submitted)
    && (forall n :: n in w.submitted ==> w.first <= n < w.issued)
    && w.gaveUp <= w.submitted
    && (forall id :: id in w.task.cancels ==> exists n :: n in w.gaveUp && id == RequestId(n))
    && (forall n :: n in w.task.dropped ==> if w.task.dropped[n].Cancelled? then n in w.gaveUp else !w.task.running)
    && (!w.task.running ==> w.task.queue == [] && w.task.pending == map[])
  }

  lemma {:induction false} PendingValues(t: Task, n: nat)
    requires forall id :: id in t.pending ==> id == RequestId(t.pending[id])
    ensures n in t.pending.Values <==> IsPending(t, n)
  {
  }

  /** Putting one request in a place leaves every other where it was. */
  lemma {:induction false} Moved(t: Task, u: Task, submitted: set<nat>, n: nat, to: Place)
    requires Places(t, submitted)
    requires Is(u, n, to) && forall at :: Is(u, n, at) ==> at == to
    requires forall m, at :: m != n ==> (Is(u, m, at) <==> Is(t, m, at))
    requires forall i, j :: 0 <= i < j < |u.queue| ==> u.queue[i] != u.queue[j]
    requires forall id :: id in u.pending ==> id == RequestId(u.pending[id])
    ensures Places(u, submitted + {n})
  {
  }

  lemma {:induction false} OnlyPlace(t: Task, submitted: set<nat>, n: nat, at: Place)
    requires Places(t, submitted) && Is(t, n, at)
    ensures n in submitted && submitted + {n} == submitted
    ensures forall other :: Is(t, n, other) ==> other == at
  {
  }

  lemma {:induction false} SubmitKeepsPlaces(t: Task, submitted: set<nat>, n: nat)
    requires Places(t, submitted) && n !in submitted
    ensures Places(t.(queue := t.queue + [n]), submitted + {n})
  {
    assert Nowhere(t, n);
    assert !Is(t, n, Queued) && !Is(t, n, Pending) && !Is(t, n, Answered) && !Is(t, n, Dropped);
    Moved(t, t.(queue := t.queue + [n]), submitted, n, Queued);
  }

  /** The head of the queue leaves it. */
  lemma {:induction false} HeadOfQueue(t: Task, submitted: set<nat>, m: nat)
    requires Places(t, submitted) && t.queue != []
    ensures m in t.queue[1..] <==> m in t.queue && m != t.queue[0]
  {
  }

  lemma {:induction false} AnswerKeepsPlaces(t: Task, submitted: set<nat>, r: Reply)
    requires Places(t, submitted) && t.queue != []
    ensures Places(Answer(t.(queue := t.queue[1..]), t.queue[0], r), submitted)
  {
    var n := t.queue[0];
    var u := Answer(t.(queue := t.queue[1..]), n, r);
    OnlyPlace(t, submitted, n, Queued);
    assert !Is(t, n, Pending) && !Is(t, n, Dropped);
    forall m ensures m in u.queue <==> m in t.queue && m != n { HeadOfQueue(t, submitted, m); }
    Moved(t, u, submitted, n, Answered);
  }

  /** Sending puts the request under an id no other request has. */
  lemma {:induction false} SendKeepsPlaces(t: Task, submitted: set<nat>, first: nat)
    requires Places(t, submitted) && t.queue != []
    requires forall n :: n in submitted ==> first <= n < first + COUNTER_RANGE
    ensures Places(TakeRequest(t, Sent), submitted)
    ensures RequestId(t.queue[0]) !in t.pending
  {
    var n := t.queue[0];
    var u := TakeRequest(t, Sent);
    OnlyPlace(t, submitted, n, Queued);
    assert !Is(t, n, Pending) && !Is(t, n, Answered) && !Is(t, n, Dropped);
    if RequestId(n) in t.pending {
      var m := t.pending[RequestId(n)];
      assert IsPending(t, m);
      OnlyPlace(t, submitted, m, Pending);
      IdsDistinct(m, n, first);
    }
    forall m ensures m in u.queue <==> m in t.queue && m != n { HeadOfQueue(t, submitted, m); }
    assert forall m, at :: m != n ==> (Is(u, m, at) <==> Is(t, m, at));
    Moved(t, u, submitted, n, Pending);
  }

  /** One request's places, renamed. */
  lemma {:induction false} Renamed(t: Task, u: Task, submitted: set<nat>, n: nat, rename: Place -> Place)
    requires Places(t, submitted)
    requires forall at :: Is(t, n, at) ==> Is(u, n, rename(at))
    requires forall at :: Is(u, n, at) ==> exists from :: Is(t, n, from) && rename(from) == at
    ensures if n in submitted then ExactlyOnePlace(u, n) else Nowhere(u, n)
  {
  }

  function WhenFailed(at: Place): Place {
    if at == Pending then Answered else at
  }

  lemma {:induction false} FailAllMoves(t: Task, submitted: set<nat>, reason: string, n: nat)
    requires Places(t, submitted)
    ensures var u := FailAll(t, reason);
            if n in submitted then ExactlyOnePlace(u, n) else Nowhere(u, n)
  {
    var u := FailAll(t, reason);
    PendingValues(t, n);
    assert Is(u, n, Answered) <==> Is(t, n, Answered) || Is(t, n, Pending);
    assert WhenFailed(Pending) == Answered && WhenFailed(Answered) == Answered;
    assert WhenFailed(Queued) == Queued && WhenFailed(Dropped) == Dropped;
    Renamed(t, u, submitted, n, WhenFailed);
  }

  lemma {:induction false} FailAllKeepsPlaces(t: Task, submitted: set<nat>, reason: string)
    requires Places(t, submitted)
    ensures Places(FailAll(t, reason), submitted)
  {
    forall n ensures var u := FailAll(t, reason); if n in submitted then ExactlyOnePlace(u, n) else Nowhere(u, n) {
      FailAllMoves(t, submitted, reason, n);
    }
  }

  function WhenEnded(at: Place): Place {
    if at == Pending || at == Queued then Dropped else at
  }

  lemma {:induction false} EndKeepsPlaces(t: Task, submitted: set<nat>)
    requires Places(t, submitted)
    ensures Places(End(t), submitted)
  {
    var u := End(t);
    forall n ensures if n in submitted then ExactlyOnePlace(u, n) else Nowhere(u, n) {
      PendingValues(t, n);
      assert Is(t, n, Pending) || Is(t, n, Queued) ==> Is(u, n, Dropped);
      assert Is(u, n, Dropped) ==> Is(t, n, Dropped) || Is(t, n, Pending) || Is(t, n, Queued);
      assert WhenEnded(Pending) == Dropped && WhenEnded(Answered) == Answered;
      assert WhenEnded(Queued) == Dropped && WhenEnded(Dropped) == Dropped;
      Renamed(t, u, submitted, n, WhenEnded);
    }
  }

  /** A cancel or a response takes one request, the one with that id, out of the map. */
  lemma {:induction false} RemoveKeepsPlaces(t: Task, u: Task, submitted: set<nat>, id: string, to: Place)
    requires Places(t, submitted) && id in t.pending && (to == Answered || to == Dropped)
    requires u == t.(cancels := u.cancels, pending := t.pending - {id}, answered := u.answered, dropped := u.dropped)
    requires u.answered.Keys == t.answered.Keys + (if to == Answered then {t.pending[id]} else {})
    requires u.dropped.Keys == t.dropped.Keys + (if to == Dropped then {t.pending[id]} else {})
    ensures Places(u, submitted)
  {
    var n := t.pending[id];
    assert IsPending(t, n);
    OnlyPlace(t, submitted, n, Pending);
    assert !Is(t, n, Queued) && !Is(t, n, Answered) && !Is(t, n, Dropped);
    forall m ensures m in u.answered <==> m in u.answered.Keys {}
    forall m ensures m in u.dropped <==> m in u.dropped.Keys {}
    assert forall m, at :: m != n ==> (Is(u, m, at) <==> Is(t, m, at));
    Moved(t, u, submitted, n, to);
  }

  ghost predicate NotWrapped(w: World) {
    w.issued <= w.first + COUNTER_RANGE
  }

  lemma {:induction false} EndRules(t: Task, submitted: set<nat>)
    requires Places(t, submitted)
    ensures forall n :: n in t.dropped ==> n in End(t).dropped && End(t).dropped[n] == t.dropped[n]
    ensures forall n :: n in End(t).dropped && n !in t.dropped ==> End(t).dropped[n] == TaskEnded
    ensures End(t).answered == t.answered
  {
    forall n | n in t.dropped ensures n in End(t).dropped && End(t).dropped[n] == t.dropped[n] {
      PendingValues(t, n);
      OnlyPlace(t, submitted, n, Dropped);
      assert !Is(t, n, Queued) && !Is(t, n, Pending);
    }
  }

  lemma {:induction false} RequestKeepsInv(w: World, sending: Sending)
    requires Inv(w) && NotWrapped(w) && Enabled(w, RequestTaken(sending))
    ensures Inv(After(w, RequestTaken(sending)))
  {
    var t := w.task;
    match sending
    case Sent => SendKeepsPlaces(t, w.submitted, w.first);
    case CannotEncode => AnswerKeepsPlaces(t, w.submitted, EncodeFailed);
    case SinkFailed =>
      var answered := Answer(t.(queue := t.queue[1..]), t.queue[0], SendFailed);
      AnswerKeepsPlaces(t, w.submitted, SendFailed);
      FailAllKeepsPlaces(answered, w.submitted, "WebSocket closed");
      var failed := FailAll(answered, "WebSocket closed");
      EndKeepsPlaces(failed, w.submitted);
      EndRules(failed, w.submitted);
  }

  lemma {:induction false} CancelsAreNoPlace(t: Task, submitted: set<nat>, cancels: seq<string>)
    requires Places(t, submitted)
    ensures Places(t.(cancels := cancels), submitted)
  {
    var u := t.(cancels := cancels);
    assert forall m, at :: Is(u, m, at) <==> Is(t, m, at);
    forall m ensures if m in submitted then ExactlyOnePlace(u, m) else Nowhere(u, m) {
      Renamed(t, u, submitted, m, at => at);
    }
  }

  /** Only the request that gave up is ever cancelled. */
  lemma {:induction false} CancelIsOwn(w: World, id: string)
    requires Inv(w) && NotWrapped(w) && id in w.task.cancels && id in w.task.pending
    ensures w.task.pending[id] in w.gaveUp
  {
    var m :| m in w.gaveUp && id == RequestId(m);
    assert IsPending(w.task, w.task.pending[id]);
    OnlyPlace(w.task, w.submitted, w.task.pending[id], Pending);
    IdsDistinct(m, w.task.pending[id], w.first);
  }

  lemma {:induction false} CancelKeepsPlaces(t: Task, submitted: set<nat>)
    requires Places(t, submitted) && t.cancels != []
    ensures Places(TakeCancel(t), submitted)
  {
    var id := t.cancels[0];
    if id in t.pending { RemoveKeepsPlaces(t, TakeCancel(t), submitted, id, Dropped); }
    else { CancelsAreNoPlace(t, submitted, t.cancels[1..]); }
  }

  lemma {:induction false} CancelKeepsInv(w: World)
    requires Inv(w) && NotWrapped(w) && Enabled(w, CancelTaken)
    ensures Inv(After(w, CancelTaken))
  {
    var t := w.task;
    CancelKeepsPlaces(t, w.submitted);
    if t.cancels[0] in t.pending { CancelIsOwn(w, t.cancels[0]); }
    assert forall c :: c in t.cancels[1..] ==> c in t.cancels;
  }

  lemma {:induction false} ResponseKeepsInv(w: World, id: string, reply: Reply)
    requires Inv(w) && Enabled(w, ResponseRead(id, reply))
    ensures Inv(After(w, ResponseRead(id, reply)))
  {
    if id in w.task.pending { RemoveKeepsPlaces(w.task, TakeResponse(w.task, id, reply), w.submitted, id, Answered); }
  }

  lemma {:induction false} EndKeepsInv(w: World, step: Step)
    requires Inv(w) && Enabled(w, step) && (step.StreamEnded? || step.HandlesGone?)
    ensures Inv(After(w, step))
  {
    var t := if step.StreamEnded? then FailAll(w.task, step.reason) else w.task;
    if step.StreamEnded? { FailAllKeepsPlaces(w.task, w.submitted, step.reason); }
    EndKeepsPlaces(t, w.submitted);
    EndRules(t, w.submitted);
  }

  lemma {:induction false} ClientKeepsInv(w: World, step: Step)
    requires Inv(w) && Enabled(w, step) && (step.Issue? || step.Submit? || step.GiveUp?)
    ensures Inv(After(w, step))
  {
    match step
    case Submit(n) => SubmitKeepsPlaces(w.task, w.submitted, n);
    case GiveUp(n) =>
      var u := After(w, step);
      CancelsAreNoPlace(w.task, w.submitted, u.task.cancels);
      forall id | id in u.task.cancels ensures exists m :: m in u.gaveUp && id == RequestId(m) {
        if id in w.task.cancels { var m :| m in w.gaveUp && id == RequestId(m); assert m in u.gaveUp; }
        else { assert n in u.gaveUp; }
      }
    case _ =>
  }

  lemma {:induction false} StepKeepsInv(w: World, step: Step)
    requires Inv(w) && NotWrapped(w) && Enabled(w, step)
    ensures Inv(After(w, step))
  {
    match step
    case RequestTaken(sending) => RequestKeepsInv(w, sending);
    case CancelTaken => CancelKeepsInv(w);
    case ResponseRead(id, reply) => ResponseKeepsInv(w, id, reply);
    case StreamEnded(_) => EndKeepsInv(w, step);
    case HandlesGone => EndKeepsInv(w, step);
    case _ => ClientKeepsInv(w, step);
  }

  lemma {:induction false} RunKeepsInv(worlds: seq<World>, steps: seq<Step>)
    requires Run(worlds, steps) && NotWrapped(worlds[|steps|])
    ensures Inv(worlds[|steps|])
    decreases |steps|
  {
    if steps == [] {
      forall n ensures Nowhere(worlds[0].task, n) {}
    } else {
      var k := |steps| - 1;
      assert worlds[k + 1] == After(worlds[k], steps[k]);
      assert NotWrapped(worlds[k]);
      RunKeepsInv(worlds[..k + 1], steps[..k]);
      StepKeepsInv(worlds[k], steps[k]);
    }
  }

  // ------------------------------------------------------------------
  // Main results
  // ------------------------------------------------------------------

  /**
   * In every run each submitted request is in exactly one place: queued, pending under its own id,
   * answered, or dropped, and dropped only by its own cancel or by the end of the client task.
   */
  lemma {:induction false} EveryRequestAccountedFor(worlds: seq<World>, steps: seq<Step>, n: nat)
    requires Run(worlds, steps) && NotWrapped(worlds[|steps|])
    ensures var w := worlds[|steps|];
            && (n in w.submitted <==> ExactlyOnePlace(w.task, n))
            && (n !in w.submitted <==> Nowhere(w.task, n))
            && (n in w.task.dropped ==> if w.task.dropped[n].Cancelled? then n in w.gaveUp else !w.task.running)
  {
    RunKeepsInv(worlds, steps);
    var w := worlds[|steps|];
    assert if n in w.submitted then ExactlyOnePlace(w.task, n) else Nowhere(w.task, n);
  }

  /** Once the client task has ended nothing is queued or pending, so every caller's wait is over. */
  lemma {:induction false} NothingPendingAfterEnd(worlds: seq<World>, steps: seq<Step>, n: nat)
    requires Run(worlds, steps) && NotWrapped(worlds[|steps|])
    requires !worlds[|steps|].task.running && n in worlds[|steps|].submitted
    ensures worlds[|steps|].task.pending == map[]
    ensures n in worlds[|steps|].task.answered <==> n !in worlds[|steps|].task.dropped
  {
    RunKeepsInv(worlds, steps);
    var t := worlds[|steps|].task;
    assert ExactlyOnePlace(t, n);
    assert !Is(t, n, Queued) && !Is(t, n, Pending);
    assert Is(t, n, Answered) <==> !Is(t, n, Dropped);
  }

  /** A response completes the one request that was sent under its id, and touches no other. */
  lemma {:induction false} ResponseCompletesOnlyItsOwn(worlds: seq<World>, steps: seq<Step>, id: string, reply: Reply,
        n: nat)
    requires Run(worlds, steps) && NotWrapped(worlds[|steps|]) && worlds[|steps|].task.running
    requires n in worlds[|steps|].submitted
    ensures var t := worlds[|steps|].task;
            var u := TakeResponse(t, id, reply);
            if Is(t, n, Pending) && RequestId(n) == id then
              n in u.answered && u.answered[n] == reply && !Is(u, n, Pending)
            else forall at :: Is(u, n, at) <==> Is(t, n, at)
  {
    RunKeepsInv(worlds, steps);
    var t := worlds[|steps|].task;
    if id in t.pending {
      var m := t.pending[id];
      assert IsPending(t, m);
    }
  }

  /** What a request was answered with never changes. */
  lemma {:induction false} AnswersStand(w: World, step: Step, n: nat)
    requires Inv(w) && Enabled(w, step) && n in w.task.answered
    ensures n in After(w, step).task.answered && After(w, step).task.answered[n] == w.task.answered[n]
  {
    var t := w.task;
    OnlyPlace(t, w.submitted, n, Answered);
    assert !Is(t, n, Queued) && !Is(t, n, Pending);
    PendingValues(t, n);
    match step
    case RequestTaken(sending) => assert t.queue[0] in t.queue;
    case ResponseRead(id, _) => if id in t.pending { assert t.pending[id] in t.pending.Values; }
    case _ =>
  }

  /** A cancel that overtakes its request finds nothing to remove, and the request is then sent all the same. */
  lemma {:induction false} OvertakingCancelDoesNothing(w: World)
    requires Inv(w) && NotWrapped(w) && Enabled(w, CancelTaken)
    requires exists n :: n in w.task.queue && RequestId(n) == w.task.cancels[0]
    ensures After(w, CancelTaken).task == w.task.(cancels := w.task.cancels[1..])
  {
    var t := w.task;
    var n :| n in t.queue && RequestId(n) == t.cancels[0];
    OnlyPlace(t, w.submitted, n, Queued);
    assert !Is(t, n, Pending);
    if t.cancels[0] in t.pending {
      var m := t.pending[t.cancels[0]];
      assert IsPending(t, m);
      OnlyPlace(t, w.submitted, m, Pending);
      IdsDistinct(m, n, w.first);
    }
  }

  // ------------------------------------------------------------------
  // What an answer says
  // ------------------------------------------------------------------

  /** What a step tells the request `n` when that step answers it. */
  function Told(w: World, step: Step, n: nat): Option<Reply> {
    match step
    case ResponseRead(_, reply) => Some(reply)
    case StreamEnded(reason) => Some(Closed(reason))
    case RequestTaken(CannotEncode) => Some(EncodeFailed)
    case RequestTaken(SinkFailed) => Some(if w.task.queue != [] && w.task.queue[0] == n then SendFailed
                                          else Closed("WebSocket closed"))
    case _ => None
  }

  /**
   * A request is answered by the response to its own id with what that response says, by failing to be encoded
   * or sent itself, or, if it was pending, by the connection closing, with the reason for it.
   */
  lemma {:induction false} AnswersSayWhy(w: World, step: Step, n: nat)
    requires Inv(w) && Enabled(w, step) && n !in w.task.answered && n in After(w, step).task.answered
    ensures Told(w, step, n) == Some(After(w, step).task.answered[n])
    ensures match step
            case ResponseRead(id, _) => id == RequestId(n) && IsPending(w.task, n)
            case StreamEnded(_) => IsPending(w.task, n)
            case RequestTaken(CannotEncode) => w.task.queue[0] == n
            case RequestTaken(SinkFailed) => w.task.queue[0] == n || IsPending(w.task, n)
            case _ => false
  {
    match step
    case RequestTaken(sending) =>
      OnlyPlace(w.task, w.submitted, w.task.queue[0], Queued);
      assert !Is(w.task, w.task.queue[0], Pending);
      TakenSaysWhy(w.task, sending, n);
    case StreamEnded(reason) => ClosedSaysWhy(w.task, reason, n);
    case _ =>
  }

  lemma {:induction false} ClosedSaysWhy(t: Task, reason: string, n: nat)
    requires forall id :: id in t.pending ==> id == RequestId(t.pending[id])
    ensures End(FailAll(t, reason)).answered == FailAll(t, reason).answered
    ensures n in FailAll(t, reason).answered ==> n in t.answered || IsPending(t, n)
    ensures IsPending(t, n) ==> n in FailAll(t, reason).answered && FailAll(t, reason).answered[n] == Closed(reason)
    ensures n in t.answered && !IsPending(t, n) ==> FailAll(t, reason).answered[n] == t.answered[n]
  {
    PendingValues(t, n);
  }

  lemma {:induction false} TakenSaysWhy(t: Task, sending: Sending, n: nat)
    requires t.queue != [] && forall id :: id in t.pending ==> id == RequestId(t.pending[id])
    requires !IsPending(t, t.queue[0]) && n !in t.answered && n in TakeRequest(t, sending).answered
    ensures match sending
            case Sent => false
            case CannotEncode => n == t.queue[0] && TakeRequest(t, sending).answered[n] == EncodeFailed
            case SinkFailed =>
              if n == t.queue[0] then TakeRequest(t, sending).answered[n] == SendFailed
              else IsPending(t, n) && TakeRequest(t, sending).answered[n] == Closed("WebSocket closed")
  {
    var rest := Answer(t.(queue := t.queue[1..]), t.queue[0], SendFailed);
    if sending.SinkFailed? { ClosedSaysWhy(rest, "WebSocket closed", n); }
  }
}
