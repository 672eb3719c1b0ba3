/** Error trees: errors.Is / errors.As, the retry decision on a transport error, the numeric
    Retry-After header, and the classification of a response's status. */
module Errors {
  import opened Basics
  import opened Decimal

  /** errors.Is(e, k): k at e or anywhere below it. */
  predicate Is(e: Error, k: Kind) {
    e.kind == k || exists i :: 0 <= i < |e.wraps| && Is(e.wraps[i], k)
  }

  /** Types that implement net.Error: Timeout() and Temporary(). */
  predicate IsNetError(k: Kind) {
    k.Net? || k == DeadlineExceeded || k == ConnReset || k == ConnRefused
  }

  /** errors.As(e, &netErr). */
  predicate AsNetError(e: Error) {
    IsNetError(e.kind) || exists i :: 0 <= i < |e.wraps| && AsNetError(e.wraps[i])
  }

  predicate RetryableError(e: Error) {
    if Is(e, Canceled) || Is(e, DeadlineExceeded) then false
    else if Is(e, EndOfFile) || Is(e, UnexpectedEof) || Is(e, ConnReset) || Is(e, ConnRefused) then true
    else AsNetError(e)
  }

  /** The kinds of all nodes of an error tree, root first. */
  ghost function Nodes(e: Error): seq<Kind> {
    [e.kind] + NodesOf(e.wraps)
  }

  ghost function NodesOf(es: seq<Error>): seq<Kind> {
    if es == [] then [] else Nodes(es[0]) + NodesOf(es[1..])
  }

  ghost predicate Transient(k: Kind) {
    k.Net? || k in {EndOfFile, UnexpectedEof, ConnReset, ConnRefused}
  }

  lemma {:induction false} IsMeansNode(e: Error, k: Kind)
    ensures Is(e, k) <==> k in Nodes(e)
  {
    IsMeansNodeOf(e.wraps, k);
  }

  lemma {:induction false} IsMeansNodeOf(es: seq<Error>, k: Kind)
    ensures (exists i :: 0 <= i < |es| && Is(es[i], k)) <==> k in NodesOf(es)
  {
    if es != [] {
      IsMeansNode(es[0], k);
      IsMeansNodeOf(es[1..], k);
      assert forall i :: 0 < i < |es| ==> es[i] == es[1..][i - 1];
    }
  }

  lemma {:induction false} AsMeansNode(e: Error)
    ensures AsNetError(e) <==> exists k :: k in Nodes(e) && IsNetError(k)
  {
    AsMeansNodeOf(e.wraps);
    assert e.kind == Nodes(e)[0];
  }

  lemma {:induction false} AsMeansNodeOf(es: seq<Error>)
    ensures (exists i :: 0 <= i < |es| && AsNetError(es[i])) <==> (exists k :: k in NodesOf(es) && IsNetError(k))
  {
    if es != [] {
      AsMeansNode(es[0]);
      AsMeansNodeOf(es[1..]);
      assert forall i :: 0 < i < |es| ==> es[i] == es[1..][i - 1];
    }
  }

  /** A transport error is retried exactly when no node of its tree is a context error and some
      node is a transient network failure. */
  lemma RetryableMeans(e: Error)
    ensures RetryableError(e) <==>
      Canceled !in Nodes(e) && DeadlineExceeded !in Nodes(e) && exists k :: k in Nodes(e) && Transient(k)
  {
    IsMeansNode(e, Canceled);
    IsMeansNode(e, DeadlineExceeded);
    IsMeansNode(e, EndOfFile);
    IsMeansNode(e, UnexpectedEof);
    IsMeansNode(e, ConnReset);
    IsMeansNode(e, ConnRefused);
    AsMeansNode(e);
  }

  const SECOND: int := 1_000_000_000
  const MAX_RETRY_AFTER_SECONDS: int := 100 * 365 * 24 * 60 * 60

  /** until(v) is how long from now the HTTP-date v lies ahead, if v is one. */
  function ParseRetryAfter(v: string, until: string -> Option<int>): (d: int)
    ensures d >= 0
    ensures v != "" && Atoi(v).Some? ==> d <= MAX_RETRY_AFTER_SECONDS * SECOND < TWO_63
  {
    if v == "" then 0
    else match Atoi(v)
      case Some(secs) =>
        if secs <= 0 then 0
        else (if secs > MAX_RETRY_AFTER_SECONDS then MAX_RETRY_AFTER_SECONDS else secs) * SECOND
      case None =>
        match until(v)
        case Some(d) => if d > 0 then d else 0
        case None => 0
  }

  /** On what a server prints, the header means that many seconds, up to the ceiling. */
  lemma RetryAfterSeconds(secs: nat, until: string -> Option<int>)
    requires secs < TWO_63
    ensures ParseRetryAfter(Itoa(secs), until) == Min(secs, MAX_RETRY_AFTER_SECONDS) * SECOND
  {
    AtoiItoa(secs);
    ValueOfItoa(secs);
  }

  /** What a Retry-After header means: nothing unless it is a positive number of seconds or a date ahead of
      now; seconds count up to the ceiling, a date as the time left until it. */
  lemma RetryAfterMeans(v: string, until: string -> Option<int>)
    ensures var d := ParseRetryAfter(v, until);
      if v == "" then d == 0
      else if Atoi(v).Some? then
        (Atoi(v).value < 1 ==> d == 0) && (Atoi(v).value >= 1 ==> d == Min(Atoi(v).value, 3_153_600_000) * SECOND)
      else if until(v).Some? && until(v).value > 0 then d == until(v).value
      else d == 0
  {
  }

  predicate Success(status: int) {
    200 <= status <= 299
  }

  /** classifyResponse: nil for 2xx, otherwise a typed error that wraps the base error. */
  function Classify(status: int): (e: Option<Error>)
    ensures e.None? <==> Success(status)
    ensures e.Some? ==> Is(e.value, Api(status))
  {
    if Success(status) then None
    else
      var base := Error(Api(status), []);
      if status == 429 || status == 400 || status == 401 || status == 403 || status == 404 || status >= 500
      then Some(Typed(ClassName(status), base))
      else Some(base)
  }

  function Typed(name: string, base: Error): (e: Error)
    ensures forall k :: Is(base, k) ==> Is(e, k)
  {
    var e := Error(Other(name), [base]);
    assert e.wraps[0] == base;
    e
  }

  function ClassName(status: int): string {
    if status == 429 then "RateLimitError"
    else if status == 400 then "ValidationError"
    else if status == 401 || status == 403 then "AuthenticationError"
    else if status == 404 then "NotFoundError"
    else "InternalError"
  }

  /** Which typed error a status gives: each named type for its own statuses only, InternalError for every
      5xx and beyond, and the bare response error for the rest. */
  lemma ClassifyMeans(status: int)
    requires !Success(status)
    ensures var e := Classify(status).value;
      && (e.kind == Other("RateLimitError") <==> status == 429)
      && (e.kind == Other("ValidationError") <==> status == 400)
      && (e.kind == Other("AuthenticationError") <==> status in {401, 403})
      && (e.kind == Other("NotFoundError") <==> status == 404)
      && (e.kind == Other("InternalError") <==> status >= 500)
      && (e.kind == Api(status) && e.wraps == [] <==> status < 500 && status !in {400, 401, 403, 404, 429})
  {
    assert |"RateLimitError"| == 14 && |"ValidationError"| == 15 && |"AuthenticationError"| == 19;
    assert "NotFoundError"[0] != "InternalError"[0];
  }
}
