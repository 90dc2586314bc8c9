/** How long to wait between connection attempts, and when to stop (`src/runtime/reconnect_policy.rs`). */
module Reconnect {
  import opened Wrappers
  import opened ConfigModel
  import opened Schema

  /** The attempt counter is an unsigned 32-bit number that saturates; the exponent is its signed reading. */
  const MAX_ATTEMPTS: nat := 0xFFFF_FFFF
  const SIGN_BIT: nat := 0x8000_0000

  const MAX_MILLIS: nat := 0xFFFF_FFFF_FFFF_FFFF

  function Power(m: real, k: nat): (r: real)
    requires m >= 1.0
    ensures r >= 1.0
  {
    if k == 0 then 1.0 else m * Power(m, k - 1)
  }

  function Exponent(attempts: nat): int {
    if attempts < SIGN_BIT then attempts else attempts - 0x1_0000_0000
  }

  function Powi(m: real, e: int): (r: real)
    requires m >= 1.0
    ensures r > 0.0
  {
    if e >= 0 then Power(m, e) else 1.0 / Power(m, -e)
  }

  /** The settings the config check lets through. */
  predicate Checked(c: ReconnectConfig) {
    ValidateReconnect(c).Pass?
  }

  function Base(c: ReconnectConfig, attempts: nat): real
    requires Checked(c)
  {
    c.initialDelayMs as real * Powi(c.multiplier, Exponent(attempts))
  }

  /** The delay before jitter. */
  function Capped(c: ReconnectConfig, attempts: nat): real
    requires Checked(c)
  {
    if Base(c, attempts) < c.maxDelayMs as real then Base(c, attempts) else c.maxDelayMs as real
  }

  /** Whether the delay for this attempt is the longest there will be. */
  predicate TopsOut(c: ReconnectConfig, attempts: nat)
    requires Checked(c)
  {
    Capped(c, attempts) >= c.maxDelayMs as real || c.multiplier <= 1.0
  }

  function DelayFor(c: ReconnectConfig, attempts: nat, jitter: nat): nat
    requires Checked(c) && Capped(c, attempts) >= 0.0
  {
    var ms := (Capped(c, attempts) + jitter as real).Floor;
    if ms > MAX_MILLIS then MAX_MILLIS else ms
  }

  lemma {:induction false} CappedRange(c: ReconnectConfig, attempts: nat)
    requires Checked(c)
    ensures 0.0 <= Capped(c, attempts) <= c.maxDelayMs as real
  {
  }

  /** The policy as a value. */
  datatype Policy = Policy(config: ReconnectConfig, attempts: nat, toppedOut: bool)

  function Fresh(c: ReconnectConfig): Policy {
    Policy(c, 0, false)
  }

  predicate Gives(p: Policy) {
    p.config.enabled && (p.config.endless || !p.toppedOut)
  }

  function Called(p: Policy): Policy
    requires Checked(p.config)
  {
    if !Gives(p) then p
    else
      var attempts := if p.attempts < MAX_ATTEMPTS then p.attempts + 1 else p.attempts;
      Policy(p.config, attempts, TopsOut(p.config, p.attempts))
  }

  class ReconnectPolicy {
    const config: ReconnectConfig
    var attempts: nat
    var backoffToppedOut: bool

    ghost function Value(): Policy
      reads this
    {
      Policy(config, attempts, backoffToppedOut)
    }

    constructor (config: ReconnectConfig)
      ensures Value() == Fresh(config)
    {
      this.config, this.attempts, this.backoffToppedOut := config, 0, false;
    }

    method NextDelay(jitter: nat) returns (delay: Option<nat>)
      requires Checked(config) && jitter <= config.jitterMs
      modifies this
      ensures Value() == Called(old(Value()))
      ensures delay.Some? <==> Gives(old(Value()))
      ensures !config.enabled ==> delay.None?
      ensures config.enabled && config.endless ==> delay.Some?
      ensures delay.Some? ==>
                Capped(config, old(attempts)) >= 0.0 && delay.value == DelayFor(config, old(attempts), jitter)
    {
      if !config.enabled { return None; }
      if !config.endless && backoffToppedOut { return None; }
      var base := config.initialDelayMs as real * Powi(config.multiplier, Exponent(attempts));
      var ceiling := config.maxDelayMs as real;
      var capped := if base < ceiling then base else ceiling;
      backoffToppedOut := capped >= ceiling || config.multiplier <= 1.0;
      CappedRange(config, attempts);
      delay := Some(DelayFor(config, attempts, jitter));
      if attempts < MAX_ATTEMPTS { attempts := attempts + 1; }
    }

    method Reset()
      modifies this
      ensures Value() == Fresh(config)
    {
      attempts, backoffToppedOut := 0, false;
    }
  }

  // ------------------------------------------------------------------
  // Growth
  // ------------------------------------------------------------------

  lemma {:induction false} PowerGrows(m: real, j: nat, k: nat)
    requires m >= 1.0 && j <= k
    ensures Power(m, j) <= Power(m, k)
  {
    if j == k {
    } else {
      PowerGrows(m, j, k - 1);
    }
  }

  lemma {:induction false} Scale(a: real, b: real, c: real)
    requires a >= 0.0 && b <= c
    ensures a * b <= a * c
  {
  }

  /** `p` is `a` times `q`, named so that a caller's product is only ever matched, not computed with. */
  lemma {:induction false} Shrunk(a: real, q: real, p: real)
    requires a >= 0.0 && 0.0 <= q <= 1.0 && p == a * q
    ensures p <= a
    ensures p < a <==> a > 0.0 && q < 1.0
  {
    var d := a * (1.0 - q);
    assert p == a - d;
    if a > 0.0 && q < 1.0 { assert d > 0.0; } else { assert d == 0.0; }
  }

  lemma {:induction false} Inverse(p: real)
    requires p >= 1.0
    ensures 0.0 < 1.0 / p <= 1.0
    ensures 1.0 / p < 1.0 <==> p > 1.0
  {
    var r := 1.0 / p;
    assert r * p == 1.0;
  }

  lemma {:induction false} Multiplied(a: real, p: real)
    requires a >= 1.0 && p >= 0.0
    ensures a * p >= p
  {
    assert a * p == p + (a - 1.0) * p;
    Scale(p, 0.0, a - 1.0);
    assert p * (a - 1.0) == (a - 1.0) * p;
  }

  lemma {:induction false} Scaled(a: real, b: real, c: real, ab: real, ac: real)
    requires a >= 0.0 && b <= c && ab == a * b && ac == a * c
    ensures ab <= ac
  {
    Scale(a, b, c);
  }

  lemma {:induction false} OneMore(k: nat, x: real)
    requires k > 0
    ensures k as real * x == (k - 1) as real * x + x
  {
    var a := (k - 1) as real;
    assert k as real == a + 1.0;
    assert (a + 1.0) * x == a * x + x;
  }

  /** Bernoulli: compound growth outruns linear growth. */
  lemma {:induction false} Bernoulli(x: real, k: nat)
    requires x >= 0.0
    ensures Power(1.0 + x, k) >= 1.0 + k as real * x
  {
    if k == 0 {
    } else {
      Bernoulli(x, k - 1);
      var p := Power(1.0 + x, k - 1);
      OneMore(k, x);
      Scale(x, 1.0, p);
      assert (1.0 + x) * p == p + x * p;
    }
  }

  lemma {:induction false} Outgrows(m: real, k: nat)
    requires m >= 1.0
    ensures Power(m, k) >= 1.0 + k as real * (m - 1.0)
  {
    var x := m - 1.0;
    assert 1.0 + x == m;
    Bernoulli(x, k);
  }

  /** The delay before any cap, as long as the exponent has not wrapped. */
  function Raw(c: ReconnectConfig, k: nat): real
    requires Checked(c)
  {
    c.initialDelayMs as real * Power(c.multiplier, k)
  }

  predicate Reaches(c: ReconnectConfig, k: nat)
    requires Checked(c)
  {
    Raw(c, k) >= c.maxDelayMs as real
  }

  lemma {:induction false} RawGrows(c: ReconnectConfig, j: nat, k: nat)
    requires Checked(c) && j <= k
    ensures Raw(c, j) <= Raw(c, k)
  {
    PowerGrows(c.multiplier, j, k);
    Scaled(c.initialDelayMs as real, Power(c.multiplier, j), Power(c.multiplier, k), Raw(c, j), Raw(c, k));
  }

  /** A delay that starts above zero and really multiplies reaches any ceiling, and within how many attempts. */
  lemma {:induction false} ReachesCeiling(c: ReconnectConfig, k: nat)
    requires Checked(c) && c.initialDelayMs > 0 && c.multiplier > 1.0
    requires k as real * (c.multiplier - 1.0) >= c.maxDelayMs as real
    ensures Reaches(c, k)
  {
    Outgrows(c.multiplier, k);
    RawAbovePower(c, k);
  }

  lemma {:induction false} RawAbovePower(c: ReconnectConfig, k: nat)
    requires Checked(c) && c.initialDelayMs > 0
    ensures Raw(c, k) >= Power(c.multiplier, k)
  {
    Multiplied(c.initialDelayMs as real, Power(c.multiplier, k));
  }

  lemma {:induction false} ReachesEventually(c: ReconnectConfig) returns (k: nat)
    requires Checked(c) && c.initialDelayMs > 0 && c.multiplier > 1.0
    ensures LeastReaching(c, k)
  {
    var x := c.multiplier - 1.0;
    var enough := (c.maxDelayMs as real / x).Floor + 1;
    assert (c.maxDelayMs as real / x) * x == c.maxDelayMs as real;
    assert enough as real >= c.maxDelayMs as real / x;
    assert enough as real * x >= (c.maxDelayMs as real / x) * x;
    ReachesCeiling(c, enough);
    k := Least(c, enough);
  }

  ghost predicate LeastReaching(c: ReconnectConfig, k: nat) {
    Checked(c) && Reaches(c, k) && forall j: nat :: j < k ==> !Reaches(c, j)
  }

  lemma {:induction false} Least(c: ReconnectConfig, enough: nat) returns (k: nat)
    requires Checked(c) && Reaches(c, enough)
    ensures k <= enough && LeastReaching(c, k)
  {
    k := 0;
    while !Reaches(c, k)
      invariant k <= enough
      invariant forall j: nat :: j < k ==> !Reaches(c, j)
      decreases enough - k
    {
      k := k + 1;
    }
  }

  // ------------------------------------------------------------------
  // Runs
  // ------------------------------------------------------------------

  datatype Op = Call | ResetCall

  /** The policy after a run of calls and resets. */
  function After(c: ReconnectConfig, ops: seq<Op>): Policy
    requires Checked(c)
    ensures After(c, ops).config == c
  {
    if ops == [] then Fresh(c)
    else
      var p := After(c, ops[..|ops| - 1]);
      if ops[|ops| - 1].Call? then Called(p) else Fresh(c)
  }

  /** How many calls were made since the last reset. */
  function Since(ops: seq<Op>): nat {
    if ops == [] || ops[|ops| - 1].ResetCall? then 0 else 1 + Since(ops[..|ops| - 1])
  }

  function Min(a: nat, b: nat): nat { if a < b then a else b }

  lemma {:induction false} PowerAboveOne(m: real, k: nat)
    requires m >= 1.0 && k > 0
    ensures Power(m, k) > 1.0 <==> m > 1.0
  {
    if m > 1.0 {
      Multiplied(m, Power(m, k - 1));
      if k > 1 { PowerAboveOne(m, k - 1); } else { assert Power(m, 1) == m * Power(m, 0) == m; }
    } else {
      FlatPower(k);
    }
  }

  lemma {:induction false} FlatPower(k: nat)
    ensures Power(1.0, k) == 1.0
  {
    if k == 0 {
    } else {
      FlatPower(k - 1);
    }
  }

  lemma {:induction false} RawAtZero(c: ReconnectConfig)
    requires Checked(c)
    ensures Raw(c, 0) == c.initialDelayMs as real
  {
    assert Power(c.multiplier, 0) == 1.0;
    assert Raw(c, 0) == c.initialDelayMs as real * 1.0;
  }

  lemma {:induction false} WrappedPower(m: real, e: int)
    requires m >= 1.0 && e < 0
    ensures 0.0 < Powi(m, e) <= 1.0
    ensures Powi(m, e) < 1.0 <==> m > 1.0
  {
    PowerAboveOne(m, -e);
    Inverse(Power(m, -e));
  }

  /** Once the exponent has wrapped a delay is never above the first one. */
  lemma {:induction false} WrappedBase(c: ReconnectConfig, attempts: nat)
    requires Checked(c) && SIGN_BIT <= attempts <= MAX_ATTEMPTS
    ensures Base(c, attempts) <= c.initialDelayMs as real
    ensures Base(c, attempts) < c.initialDelayMs as real <==> c.initialDelayMs > 0 && c.multiplier > 1.0
  {
    var first, q := c.initialDelayMs as real, Powi(c.multiplier, Exponent(attempts));
    WrappedPower(c.multiplier, Exponent(attempts));
    Shrunk(first, q, Base(c, attempts));
    assert first > 0.0 <==> c.initialDelayMs > 0;
  }

  /** Which attempt tops out, for a policy whose delays really grow. */
  lemma {:induction false} TopsOutMeaning(c: ReconnectConfig, attempts: nat)
    requires Checked(c) && c.multiplier > 1.0
    ensures attempts < SIGN_BIT ==> (TopsOut(c, attempts) <==> Reaches(c, attempts))
    ensures SIGN_BIT <= attempts <= MAX_ATTEMPTS && TopsOut(c, attempts) ==> Reaches(c, 0)
  {
    if attempts < SIGN_BIT {
      assert Base(c, attempts) == Raw(c, attempts);
    } else if attempts <= MAX_ATTEMPTS {
      WrappedBase(c, attempts);
      RawAtZero(c);
    }
  }

  /** A bounded policy whose `k`-th delay is the first to reach the ceiling hands out `k + 1` delays. */
  lemma {:induction false} BudgetSpent(c: ReconnectConfig, k: nat, ops: seq<Op>)
    requires c.enabled && !c.endless && LeastReaching(c, k) && k < SIGN_BIT && c.multiplier > 1.0
    ensures After(c, ops) == Policy(c, Min(Since(ops), k + 1), Since(ops) > k)
  {
    if ops == [] {
    } else {
      var before := ops[..|ops| - 1];
      BudgetSpent(c, k, before);
      TopsOutMeaning(c, Min(Since(before), k + 1));
    }
  }

  /** With a multiplier of exactly one the first delay is the last. */
  lemma {:induction false} FlatBudget(c: ReconnectConfig, ops: seq<Op>)
    requires Checked(c) && c.enabled && !c.endless && c.multiplier == 1.0
    ensures After(c, ops) == Policy(c, Min(Since(ops), 1), Since(ops) > 0)
  {
    if ops == [] {
    } else {
      FlatBudget(c, ops[..|ops| - 1]);
    }
  }

  /** Delays that never reach the ceiling before the exponent wraps never reach it at all. */
  lemma {:induction false} NeverSpent(c: ReconnectConfig, ops: seq<Op>)
    requires Checked(c) && c.enabled && c.multiplier > 1.0 && !Reaches(c, SIGN_BIT - 1)
    ensures After(c, ops) == Policy(c, Min(Since(ops), MAX_ATTEMPTS), false)
  {
    if ops == [] {
    } else {
      var before := ops[..|ops| - 1];
      NeverSpent(c, before);
      var attempts := Min(Since(before), MAX_ATTEMPTS);
      TopsOutMeaning(c, attempts);
      RawGrows(c, 0, SIGN_BIT - 1);
      if attempts < SIGN_BIT { RawGrows(c, attempts, SIGN_BIT - 1); }
    }
  }

  /**
   * The bounded policy: over any run of calls and resets a call is granted exactly when at most `k`
   * calls came since the last reset, `k` being the least exponent whose delay reaches the ceiling.
   * So it grants `k + 1` delays, stays exhausted, and a reset gives the whole budget back.
   */
  lemma {:induction false} BoundedBackoff(c: ReconnectConfig, k: nat, ops: seq<Op>)
    requires Checked(c) && c.enabled && !c.endless
    requires if c.multiplier == 1.0 then k == 0 else LeastReaching(c, k) && k < SIGN_BIT
    ensures Gives(After(c, ops)) <==> Since(ops) <= k
    ensures Gives(After(c, ops)) ==> After(c, ops).attempts == Since(ops)
  {
    if c.multiplier == 1.0 { FlatBudget(c, ops); } else { BudgetSpent(c, k, ops); }
  }

  /** An endless policy grants every call, however long the run and whatever the delays do. */
  lemma {:induction false} EndlessNeverStops(c: ReconnectConfig, ops: seq<Op>)
    requires Checked(c) && c.enabled && c.endless
    ensures Gives(After(c, ops)) && After(c, ops).attempts == Min(Since(ops), MAX_ATTEMPTS)
  {
    if ops == [] {
    } else {
      EndlessNeverStops(c, ops[..|ops| - 1]);
    }
  }

  /** A disabled policy grants none, and never leaves its first state. */
  lemma {:induction false} DisabledNeverGives(c: ReconnectConfig, ops: seq<Op>)
    requires Checked(c) && !c.enabled
    ensures !Gives(After(c, ops)) && After(c, ops) == Fresh(c)
  {
    if ops == [] {
    } else {
      DisabledNeverGives(c, ops[..|ops| - 1]);
    }
  }

  ghost predicate EventuallyStops(c: ReconnectConfig)
    requires Checked(c)
  {
    exists ops: seq<Op> :: !Gives(After(c, ops))
  }

  function Calls(n: nat): (ops: seq<Op>)
    ensures |ops| == n && Since(ops) == n
  {
    if n == 0 then [] else var shorter := Calls(n - 1); assert (shorter + [Call])[..n - 1] == shorter; shorter + [Call]
  }

  /**
   * When a policy that is meant to give up really does: the multiplier is exactly one, or the delay
   * reaches the ceiling before the attempt counter's signed reading turns negative.
   */
  lemma {:induction false} StopsExactlyWhen(c: ReconnectConfig)
    requires Checked(c) && c.enabled && !c.endless
    ensures EventuallyStops(c) <==> c.multiplier == 1.0 || Reaches(c, SIGN_BIT - 1)
  {
    if c.multiplier == 1.0 {
      FlatBudget(c, Calls(1));
      assert !Gives(After(c, Calls(1)));
    } else if Reaches(c, SIGN_BIT - 1) {
      var k := Least(c, SIGN_BIT - 1);
      BudgetSpent(c, k, Calls(k + 1));
      assert !Gives(After(c, Calls(k + 1)));
    } else {
      forall ops: seq<Op> ensures Gives(After(c, ops)) { NeverSpent(c, ops); }
    }
  }

  /** With the shipped delays (500 ms, times 1.8, ceiling 10 s) a bounded policy grants exactly seven. */
  lemma {:induction false} ShippedDelaysGiveSeven(jitter: nat, ops: seq<Op>)
    ensures var c := ReconnectConfig(true, false, 500, 10000, 1.8, jitter);
            Checked(c) && (Gives(After(c, ops)) <==> Since(ops) < 7)
  {
    var c := ReconnectConfig(true, false, 500, 10000, 1.8, jitter);
    ShippedPowers();
    assert Raw(c, 6) == 500.0 * Power(1.8, 6) && Raw(c, 5) == 500.0 * Power(1.8, 5);
    forall j: nat | j < 6 ensures !Reaches(c, j) { RawGrows(c, j, 5); }
    BoundedBackoff(c, 6, ops);
  }

  lemma {:induction false} ShippedPowers()
    ensures Power(1.8, 5) == 18.89568 && Power(1.8, 6) == 34.012224
  {
    assert Power(1.8, 1) == 1.8 * Power(1.8, 0) == 1.8;
    assert Power(1.8, 2) == 1.8 * Power(1.8, 1) == 3.24;
    assert Power(1.8, 3) == 1.8 * Power(1.8, 2) == 5.832;
    assert Power(1.8, 4) == 1.8 * Power(1.8, 3) == 10.4976;
    assert Power(1.8, 5) == 1.8 * Power(1.8, 4);
    assert Power(1.8, 6) == 1.8 * Power(1.8, 5);
  }

  /** A checkable bound: a multiplier far enough above one always stops, and within this many attempts. */
  lemma {:induction false} StopsWithin(c: ReconnectConfig, n: nat)
    requires Checked(c) && c.enabled && !c.endless && c.initialDelayMs > 0 && c.multiplier > 1.0
    requires n < SIGN_BIT && n as real * (c.multiplier - 1.0) >= c.maxDelayMs as real
    ensures forall ops: seq<Op> :: Since(ops) > n ==> !Gives(After(c, ops))
  {
    ReachesCeiling(c, n);
    var k := Least(c, n);
    forall ops: seq<Op> | Since(ops) > n ensures !Gives(After(c, ops)) { BoundedBackoff(c, k, ops); }
  }

  lemma {:induction false} BoundStep(p: real, x: real, y: real)
    requires p >= 0.0 && x >= 0.0 && y >= 0.0 && p * (1.0 - y) <= 1.0
    ensures ((1.0 + x) * p) * (1.0 - (y + x)) <= 1.0
  {
    var q := (1.0 + x) * (1.0 - (y + x));
    Scale(x, 0.0, y);
    Scale(x, 0.0, x);
    assert q == 1.0 - y - x * y - x * x;
    Scale(p, q, 1.0 - y);
    assert ((1.0 + x) * p) * (1.0 - (y + x)) == p * q;
  }

  /** `1 + x` compounded stays below `1 / (1 - nx)`. */
  lemma {:induction false} GrowthBound(x: real, n: nat)
    requires 0.0 <= x
    ensures Power(1.0 + x, n) * (1.0 - n as real * x) <= 1.0
  {
    if n == 0 {
    } else {
      GrowthBound(x, n - 1);
      OneMore(n, x);
      Scale(x, 0.0, (n - 1) as real);
      BoundStep(Power(1.0 + x, n - 1), x, (n - 1) as real * x);
    }
  }

  /**
   * Settings the check accepts, not endless, initial delay above zero, multiplier above one, and yet it
   * never gives up.
   */
  lemma {:induction false} SlowGrowthNeverStops()
    ensures var c := ReconnectConfig(true, false, 1, 2, 1.0 + 1.0 / 0x1_0000_0000 as real, 0);
            Checked(c) && c.multiplier > 1.0 && !EventuallyStops(c)
  {
    var x := 1.0 / 0x1_0000_0000 as real;
    var c := ReconnectConfig(true, false, 1, 2, 1.0 + x, 0);
    var n := SIGN_BIT - 1;
    GrowthBound(x, n);
    assert n as real * x < 0.5;
    var p := Power(1.0 + x, n);
    assert p * (1.0 - n as real * x) > p * 0.5;
    assert Raw(c, n) == p;
    StopsExactlyWhen(c);
  }

  // ------------------------------------------------------------------
  // The delays themselves
  // ------------------------------------------------------------------

  /** One delay to the next: it shrinks exactly when the exponent wraps under a delay that had grown. */
  lemma {:induction false} DelaysClimb(c: ReconnectConfig, attempts: nat)
    requires Checked(c) && attempts + 1 < SIGN_BIT
    ensures Capped(c, attempts) <= Capped(c, attempts + 1)
  {
    RawGrows(c, attempts, attempts + 1);
  }

  /** The exponent wraps: the delay falls below the very first one, unless it never grew. */
  lemma {:induction false} BackoffCollapses(c: ReconnectConfig)
    requires Checked(c)
    ensures Capped(c, SIGN_BIT) < Capped(c, SIGN_BIT - 1) <==> c.multiplier > 1.0 && c.initialDelayMs > 0
  {
    assert c.initialDelayMs as real <= c.maxDelayMs as real;
    WrappedBase(c, SIGN_BIT);
    RawGrows(c, 0, SIGN_BIT - 1);
    RawAtZero(c);
    assert Base(c, SIGN_BIT - 1) == Raw(c, SIGN_BIT - 1);
    if c.multiplier == 1.0 { FlatPower(SIGN_BIT - 1); }
    if c.initialDelayMs == 0 { assert Raw(c, SIGN_BIT - 1) == 0.0; }
  }

  /** Whole milliseconds of jitter come on top of the delay unchanged. */
  lemma {:induction false} JitterOnTop(c: ReconnectConfig, attempts: nat, jitter: nat)
    requires Checked(c) && c.maxDelayMs + jitter <= MAX_MILLIS
    ensures Capped(c, attempts) >= 0.0
    ensures DelayFor(c, attempts, 0) == Capped(c, attempts).Floor <= c.maxDelayMs
    ensures DelayFor(c, attempts, jitter) == DelayFor(c, attempts, 0) + jitter
  {
    CappedRange(c, attempts);
    FloorShift(Capped(c, attempts), jitter);
    FloorShift(Capped(c, attempts), 0);
    FloorOrder(Capped(c, attempts), c.maxDelayMs as real);
  }

  /**
   * The last delay a bounded policy grants is the ceiling itself, jitter aside, and the delays up to it
   * never shrink.
   */
  lemma {:induction false} LastDelayIsLongest(c: ReconnectConfig, k: nat, attempts: nat, jitter: nat)
    requires LeastReaching(c, k) && k < SIGN_BIT && attempts <= k
    requires c.maxDelayMs + jitter <= MAX_MILLIS
    ensures Capped(c, attempts) >= 0.0
    ensures attempts == k ==> DelayFor(c, attempts, jitter) == c.maxDelayMs + jitter
    ensures attempts < k ==>
              Capped(c, attempts + 1) >= 0.0 && DelayFor(c, attempts, 0) <= DelayFor(c, attempts + 1, 0) <= c.maxDelayMs
  {
    JitterOnTop(c, attempts, jitter);
    if attempts < k {
      JitterOnTop(c, attempts + 1, jitter);
      DelaysClimb(c, attempts);
      FloorOrder(Capped(c, attempts), Capped(c, attempts + 1));
    } else {
      assert Base(c, k) == Raw(c, k);
      assert Capped(c, k) == c.maxDelayMs as real;
    }
  }

  lemma {:induction false} FloorShift(x: real, n: nat)
    ensures (x + n as real).Floor == x.Floor + n
  {
  }

  lemma {:induction false} FloorOrder(x: real, y: real)
    requires x <= y
    ensures x.Floor <= y.Floor
  {
  }

  /** Below the ceiling a delay is the initial one compounded, rounded down, with the jitter on top. */
  lemma {:induction false} DelayBelowCeiling(c: ReconnectConfig, attempts: nat, jitter: nat)
    requires Checked(c) && attempts < SIGN_BIT && !Reaches(c, attempts) && c.maxDelayMs + jitter <= MAX_MILLIS
    ensures Capped(c, attempts) >= 0.0
    ensures DelayFor(c, attempts, jitter) == (c.initialDelayMs as real * Power(c.multiplier, attempts)).Floor + jitter
  {
    JitterOnTop(c, attempts, jitter);
    assert Base(c, attempts) == Raw(c, attempts);
  }

  /** A delay past what 64 bits of milliseconds hold is cut there. */
  lemma {:induction false} DelaySaturates(c: ReconnectConfig, attempts: nat, jitter: nat)
    requires Checked(c)
    ensures Capped(c, attempts) >= 0.0 && DelayFor(c, attempts, jitter) <= MAX_MILLIS
    ensures Capped(c, attempts) + jitter as real >= MAX_MILLIS as real ==> DelayFor(c, attempts, jitter) == MAX_MILLIS
  {
    CappedRange(c, attempts);
    if Capped(c, attempts) + jitter as real >= MAX_MILLIS as real {
      FloorOrder(MAX_MILLIS as real, Capped(c, attempts) + jitter as real);
    }
  }

  /** The exponent is the 32-bit attempt counter read as a signed number. */
  lemma {:induction false} ExponentIsSigned(attempts: nat)
    requires attempts <= MAX_ATTEMPTS
    ensures 0 <= Exponent(attempts) + SIGN_BIT && Exponent(attempts) < SIGN_BIT
    ensures Exponent(attempts) == attempts || Exponent(attempts) + (MAX_ATTEMPTS + 1) == attempts
  {
  }

  /** Past the wrap a delay is the initial one divided by the multiplier once for each attempt still to come. */
  lemma {:induction false} DelayPastWrap(c: ReconnectConfig, attempts: nat)
    requires Checked(c) && SIGN_BIT <= attempts <= MAX_ATTEMPTS
    ensures var still := MAX_ATTEMPTS + 1 - attempts;
            Base(c, attempts) == c.initialDelayMs as real * (1.0 / Power(c.multiplier, still))
  {
  }
}
