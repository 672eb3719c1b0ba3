/** The retry loop as a function of everything its environment can do, and what holds of it for
    every environment. */
module Retry {
  import opened Basics
  import opened Errors
  import opened Backoff

  /** What the base transport does with one call: an error without a response, or a response.
      (RoundTripper forbids returning both.) */
  datatype Reply =
    | Failed(err: Error)
    | Replied(status: int, retryAfter: string, data: string, readError: Option<Error>)

  /** Everything outside the loop, attempt by attempt: the base transport, GetBody failures, and
      waits cut short by the context. */
  datatype Env = Env(
    reply: nat -> Reply,
    bodyError: nat -> Option<Error>,
    waitError: nat -> Option<Error>,
    machine: Machine
  )

  /** Where the bytes of each attempt come from. */
  datatype Source = NoSource | Getter(content: string) | Buffered(content: string) | Unreadable(err: Error)

  /** How a round trip ended: with the response of call i, or with an error. */
  datatype End =
    | Response(i: nat)
    | BaseError(err: Error)
    | WaitError(err: Error)
    | BodyError(err: Error)

  /** Calls to the base transport, waits started (the i-th one after attempt i), and the result. */
  datatype Trip = Trip(calls: nat, waits: nat, end: End)

  function Attempts(cfg: RetryConfig): nat {
    if cfg.maxAttempts < 1 then 1 else cfg.maxAttempts
  }

  /** Whether the loop would go on after this reply if attempts were left. */
  predicate Retryable(cfg: RetryConfig, r: Reply) {
    match r
    case Failed(e) => RetryableError(e)
    case Replied(status, _, _, _) => status in cfg.retryableStatus
  }

  /** The wait after attempt a. */
  function WaitAfter(cfg: RetryConfig, env: Env, a: nat): int {
    match env.reply(a)
    case Failed(_) => Wait(cfg, a, 0, env.machine)
    case Replied(_, ra, _, _) => Wait(cfg, a, ParseRetryAfter(ra, env.machine.until), env.machine)
  }

  /** The n waits after attempts a, a + 1, ... */
  function Waits(cfg: RetryConfig, env: Env, a: nat, n: nat): seq<int> {
    seq(n, w requires 0 <= w < n => WaitAfter(cfg, env, a + w))
  }

  function EndOf(env: Env, a: nat): End {
    match env.reply(a)
    case Failed(e) => BaseError(e)
    case Replied(_, _, _, _) => Response(a)
  }

  /** GetBody fails before attempt a. */
  predicate BodyFails(src: Source, env: Env, a: nat) {
    src.Getter? && env.bodyError(a).Some?
  }

  /** What one pass through the loop body adds, and how it ends the trip if it does. */
  datatype Pass = Pass(calls: nat, waits: nat, end: Option<End>)

  function PassAt(cfg: RetryConfig, src: Source, env: Env, a: nat): Pass {
    if BodyFails(src, env, a) then Pass(0, 0, Some(BodyError(env.bodyError(a).value)))
    else if a + 1 == Attempts(cfg) || !Retryable(cfg, env.reply(a)) then Pass(1, 0, Some(EndOf(env, a)))
    else Pass(1, 1, match env.waitError(a) case Some(e) => Some(WaitError(e)) case None => None)
  }

  /** The loop from attempt a on. */
  function Loop(cfg: RetryConfig, src: Source, env: Env, a: nat): Trip
    requires a < Attempts(cfg)
    decreases Attempts(cfg) - a
  {
    var p := PassAt(cfg, src, env, a);
    if p.end.Some? then Trip(a + p.calls, a + p.waits, p.end.value) else Loop(cfg, src, env, a + 1)
  }

  /** RoundTrip: a single attempt passes straight through, with no replay and no GetBody. */
  function RoundTrip(cfg: RetryConfig, src: Source, env: Env): Trip {
    if Attempts(cfg) == 1 then Trip(1, 0, EndOf(env, 0))
    else match src
      case Unreadable(e) => Trip(0, 0, BodyError(e))
      case _ => Loop(cfg, src, env, 0)
  }

  // ---------------------------------------------------------------- where the loop stops

  /** The loop goes past attempt a. */
  predicate GoesOn(cfg: RetryConfig, src: Source, env: Env, a: nat) {
    && a + 1 < Attempts(cfg)
    && !BodyFails(src, env, a) && Retryable(cfg, env.reply(a)) && env.waitError(a).None?
  }

  /** The attempt at which the loop stops: the first one it does not go past. */
  ghost function StopsAt(cfg: RetryConfig, src: Source, env: Env, a: nat): (s: nat)
    requires a < Attempts(cfg)
    ensures a <= s < Attempts(cfg)
    ensures forall b :: a <= b < s ==> GoesOn(cfg, src, env, b)
    ensures !GoesOn(cfg, src, env, s)
    decreases Attempts(cfg) - a
  {
    if GoesOn(cfg, src, env, a) then StopsAt(cfg, src, env, a + 1) else a
  }

  /** The closed form of the loop: it stops at the first attempt it does not go past, having waited
      once after every earlier one, and ends as that attempt's pass does. */
  lemma {:induction false} LoopMeans(cfg: RetryConfig, src: Source, env: Env, a: nat)
    requires a < Attempts(cfg)
    ensures var s := StopsAt(cfg, src, env, a);
      var p := PassAt(cfg, src, env, s);
      p.end.Some? && Loop(cfg, src, env, a) == Trip(s + p.calls, s + p.waits, p.end.value)
    decreases Attempts(cfg) - a
  {
    if GoesOn(cfg, src, env, a) {
      LoopMeans(cfg, src, env, a + 1);
    }
  }

  /** How many of the leading replies are retryable, counting at most limit of them. */
  ghost function RetryablePrefix(cfg: RetryConfig, env: Env, limit: nat): (m: nat)
    ensures m <= limit
    ensures forall a :: 0 <= a < m ==> Retryable(cfg, env.reply(a))
    ensures m < limit ==> !Retryable(cfg, env.reply(m))
  {
    if limit == 0 then 0
    else
      var m := RetryablePrefix(cfg, env, limit - 1);
      if m == limit - 1 && Retryable(cfg, env.reply(m)) then limit else m
  }

  /** With no injected failure: one call for every retryable reply that leads the trace, plus the
      call that ends it, capped by MaxAttempts; one wait between consecutive calls; and the result
      is that of the last call, never an earlier one. */
  lemma UndisturbedRoundTrip(cfg: RetryConfig, src: Source, env: Env)
    requires !src.Unreadable?
    requires forall a :: 0 <= a < cfg.maxAttempts ==> (src.Getter? ==> env.bodyError(a).None?) && env.waitError(a).None?
    ensures var t := RoundTrip(cfg, src, env);
      var most := if cfg.maxAttempts < 1 then 1 else cfg.maxAttempts;
      && t.calls == Min(most, 1 + RetryablePrefix(cfg, env, most))
      && t.waits == t.calls - 1
      && t.end == EndOf(env, t.calls - 1)
  {
    if Attempts(cfg) > 1 {
      LoopMeans(cfg, src, env, 0);
      var s, m := StopsAt(cfg, src, env, 0), RetryablePrefix(cfg, env, Attempts(cfg));
      assert m < s ==> GoesOn(cfg, src, env, m);
    } else {
      assert RetryablePrefix(cfg, env, 1) <= 1;
    }
  }

  /** No call is made after a reply that must not be retried: every call but the last got a
      retryable reply, so a status outside RetryableStatus, or an error with a context error
      anywhere in its tree, is always the last thing the base transport is asked. */
  lemma NoCallAfterFinalReply(cfg: RetryConfig, src: Source, env: Env, a: nat)
    requires a + 1 < RoundTrip(cfg, src, env).calls
    ensures match env.reply(a)
      case Failed(e) => Canceled !in Nodes(e) && DeadlineExceeded !in Nodes(e)
      case Replied(status, _, _, _) => status in cfg.retryableStatus
    ensures env.waitError(a).None?
  {
    LoopMeans(cfg, src, env, 0);
    assert GoesOn(cfg, src, env, a);
    if env.reply(a).Failed? {
      RetryableMeans(env.reply(a).err);
    }
  }

  /** When a reply is followed by another call, attempts being left and neither the wait nor GetBody failing:
      exactly when its status is one of the configured ones, or when it is an error whose tree has a transient
      network failure and no context error. */
  lemma RetriedMeans(cfg: RetryConfig, src: Source, env: Env, a: nat)
    requires a < RoundTrip(cfg, src, env).calls && a + 1 < cfg.maxAttempts
    requires env.waitError(a).None? && (src.Getter? ==> env.bodyError(a + 1).None?)
    ensures RoundTrip(cfg, src, env).calls > a + 1 <==>
      match env.reply(a)
      case Replied(status, _, _, _) => status in cfg.retryableStatus
      case Failed(e) =>
        && Canceled !in Nodes(e) && DeadlineExceeded !in Nodes(e)
        && exists k :: k in Nodes(e) && Transient(k)
  {
    LoopMeans(cfg, src, env, 0);
    var s := StopsAt(cfg, src, env, 0);
    assert a < s ==> GoesOn(cfg, src, env, a);
    assert GoesOn(cfg, src, env, a) <==> Retryable(cfg, env.reply(a));
    if env.reply(a).Failed? {
      RetryableMeans(env.reply(a).err);
    }
  }

  /** A replayed call is only made with a body: GetBody did not fail before any of them, and where it does fail
      nothing is called any more. */
  lemma CallsHaveBodies(cfg: RetryConfig, env: Env, content: string, a: nat)
    requires cfg.maxAttempts > 1 && a < RoundTrip(cfg, Getter(content), env).calls
    ensures env.bodyError(a).None?
  {
    LoopMeans(cfg, Getter(content), env, 0);
    assert a < StopsAt(cfg, Getter(content), env, 0) ==> GoesOn(cfg, Getter(content), env, a);
  }

  /** The result pair is the last call's; a wait or body failure ends the trip without a response
      and without another call. The return after the loop is never reached: the last attempt
      always ends the trip. */
  lemma RoundTripResult(cfg: RetryConfig, src: Source, env: Env)
    ensures var t := RoundTrip(cfg, src, env);
      && t.calls <= Attempts(cfg)
      && match t.end
         case Response(i) => t.calls == i + 1 && env.reply(i).Replied? && t.waits == i
         case BaseError(e) => t.calls > 0 && env.reply(t.calls - 1) == Failed(e) && t.waits == t.calls - 1
         case WaitError(e) => t.calls > 0 && env.waitError(t.calls - 1) == Some(e) && t.waits == t.calls
         case BodyError(e) =>
           && t.waits == t.calls
           && ((src == Unreadable(e) && t.calls == 0) || env.bodyError(t.calls) == Some(e))
  {
    LoopMeans(cfg, src, env, 0);
  }

  // ---------------------------------------------------------------- time spent waiting

  /** The time a sequence of waits takes: a timer for a duration that is not positive fires at once. */
  ghost function TimeWaited(ws: seq<int>): int {
    if ws == [] then 0 else (if ws[0] > 0 then ws[0] else 0) + TimeWaited(ws[1..])
  }

  lemma {:induction false} TimeBound(ws: seq<int>, hi: nat)
    requires forall i :: 0 <= i < |ws| ==> ws[i] <= hi
    ensures 0 <= TimeWaited(ws) <= |ws| * hi
  {
    if ws != [] {
      TimeBound(ws[1..], hi);
      assert |ws| * hi == (|ws| - 1) * hi + hi;
    }
  }

  /** The backoff of every wait the client can make fits an int64. */
  predicate BackoffFits(cfg: RetryConfig)
    requires cfg.minWait >= 0
  {
    cfg.maxAttempts >= 2 ==> Representable(cfg, cfg.maxAttempts - 2)
  }

  /** After a response with Retry-After the wait is what it says, up to MaxWait; after any other reply it is the
      backoff of that attempt. */
  lemma WaitsMean(cfg: RetryConfig, env: Env, n: nat, w: nat)
    requires Accepted(cfg) && w < n
    ensures |Waits(cfg, env, 0, n)| == n
    ensures var ra := match env.reply(w) case Failed(_) => 0
                                         case Replied(_, v, _, _) => ParseRetryAfter(v, env.machine.until);
      Waits(cfg, env, 0, n)[w] == if ra > 0 then Min(ra, cfg.maxWait) else Wait(cfg, w, 0, env.machine)
  {
    match env.reply(w)
    case Failed(_) =>
    case Replied(_, v, _, _) =>
      var ra := ParseRetryAfter(v, env.machine.until);
      if ra > 0 {
        RetryAfterWait(cfg, w, ra, env.machine);
      }
  }

  lemma WaitCount(cfg: RetryConfig, src: Source, env: Env)
    ensures RoundTrip(cfg, src, env).waits <= Attempts(cfg) - 1
  {
    LoopMeans(cfg, src, env, 0);
  }

  /** Each wait is at least 1ns and at most MaxWait. */
  ghost predicate InRange(cfg: RetryConfig, ws: seq<int>) {
    forall w :: 0 <= w < |ws| ==> 1 <= ws[w] <= cfg.maxWait
  }

  lemma EachWait(cfg: RetryConfig, env: Env, n: nat)
    requires Accepted(cfg) && BackoffFits(cfg) && n <= cfg.maxAttempts - 1
    ensures InRange(cfg, Waits(cfg, env, 0, n))
  {
    forall w | 0 <= w < n
      ensures 1 <= Waits(cfg, env, 0, n)[w] <= cfg.maxWait
    {
      ScaleGrows(Float64(cfg.minWait), w, cfg.maxAttempts - 2);
      WaitInRange(cfg, env, w);
    }
  }

  /** Every attempt is cut off by a reset connection, on a machine whose out-of-range conversions yield the
      minimum. */
  const RESETS := Env(
    _ => Reply.Failed(Error(ConnReset, [])), _ => None, _ => None, Machine(_ => None, -TWO_63, _ => 0))

  /** Such a trip uses up its attempts and makes every wait the client can make. */
  lemma ResetsUseEveryWait(cfg: RetryConfig)
    ensures RoundTrip(cfg, NoSource, RESETS).waits == Attempts(cfg) - 1
  {
    UndisturbedRoundTrip(cfg, NoSource, RESETS);
    assert forall a :: Retryable(cfg, RESETS.reply(a));
  }

  /** Every wait of every trip an accepted client can make is in [1ns, MaxWait], exactly when the backoff
      before its last attempt fits an int64. */
  lemma WaitsInRangeMeans(cfg: RetryConfig)
    requires Accepted(cfg)
    ensures BackoffFits(cfg) <==>
      forall src: Source, env: Env :: IsInt64(env.machine.overflow) ==>
        InRange(cfg, Waits(cfg, env, 0, RoundTrip(cfg, src, env).waits))
  {
    if BackoffFits(cfg) {
      forall src: Source, env: Env | IsInt64(env.machine.overflow)
        ensures InRange(cfg, Waits(cfg, env, 0, RoundTrip(cfg, src, env).waits))
      {
        WaitCount(cfg, src, env);
        EachWait(cfg, env, RoundTrip(cfg, src, env).waits);
      }
    } else {
      ResetsUseEveryWait(cfg);
      var ws := Waits(cfg, RESETS, 0, RoundTrip(cfg, NoSource, RESETS).waits);
      var last := cfg.maxAttempts - 2;
      assert ws[last] == WaitAfter(cfg, RESETS, last) == Wait(cfg, last, 0, RESETS.machine);
      assert ws[last] == -TWO_63;
    }
  }

  /** Whatever happens, a whole call of an accepted client waits at most (MaxAttempts - 1) * MaxWait. */
  lemma TotalWait(cfg: RetryConfig, src: Source, env: Env)
    requires Accepted(cfg)
    ensures var ws := Waits(cfg, env, 0, RoundTrip(cfg, src, env).waits);
      && (forall w :: 0 <= w < |ws| ==> ws[w] <= cfg.maxWait)
      && 0 <= TimeWaited(ws) <= (cfg.maxAttempts - 1) * cfg.maxWait
  {
    var n := RoundTrip(cfg, src, env).waits;
    WaitCount(cfg, src, env);
    forall w | 0 <= w < n
      ensures Waits(cfg, env, 0, n)[w] <= cfg.maxWait
    {
      LongestWait(cfg, env, w);
    }
    TimeBound(Waits(cfg, env, 0, n), cfg.maxWait);
    Times(n, cfg.maxAttempts - 1, cfg.maxWait);
  }

  lemma LongestWait(cfg: RetryConfig, env: Env, a: nat)
    requires Accepted(cfg)
    ensures WaitAfter(cfg, env, a) <= cfg.maxWait
  {
    match env.reply(a)
    case Failed(_) => WaitAtMost(cfg, a, 0, env.machine);
    case Replied(_, v, _, _) => WaitAtMost(cfg, a, ParseRetryAfter(v, env.machine.until), env.machine);
  }

  lemma WaitInRange(cfg: RetryConfig, env: Env, a: nat)
    requires Accepted(cfg) && Representable(cfg, a)
    ensures 1 <= WaitAfter(cfg, env, a) <= cfg.maxWait
  {
    match env.reply(a)
    case Failed(_) => JitteredWait(cfg, a, env.machine);
    case Replied(_, v, _, _) =>
      var ra := ParseRetryAfter(v, env.machine.until);
      if ra > 0 {
        RetryAfterWait(cfg, a, ra, env.machine);
      } else {
        JitteredWait(cfg, a, env.machine);
      }
  }
}
