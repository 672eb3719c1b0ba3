/** The transport chain on mutable objects: request and response bodies with a read position and
    a close count, the base transport's log, and retryTransport.RoundTrip itself. */
module Transport {
  import opened Basics
  import opened Errors
  import opened Backoff
  import opened Headers
  import opened Retry

  /** An io.ReadCloser over fixed data; readError is what reading yields instead of EOF. */
  class Body {
    const data: string
    const readError: Option<Error>
    var pos: nat
    var closed: nat

    ghost predicate Valid()
      reads this
    {
      pos <= |data|
    }

    constructor (data: string, readError: Option<Error>)
      ensures this.data == data && this.readError == readError && pos == 0 && closed == 0
    {
      this.data, this.readError, pos, closed := data, readError, 0, 0;
    }

    /** io.ReadAll, and io.Copy into any sink. */
    method ReadAll() returns (bytes: string, err: Option<Error>)
      requires Valid()
      modifies this`pos
      ensures Valid() && pos == |data| && bytes == data[old(pos)..] && err == readError
    {
      bytes, err, pos := data[pos..], readError, |data|;
    }

    method Close()
      modifies this`closed
      ensures closed == old(closed) + 1
    {
      closed := closed + 1;
    }
  }

  /** The parts of an http.Request the chain touches. getBody holds the bytes each reader it
      returns delivers; a nil or NoBody body is null. */
  class Request {
    var header: Header
    var body: Body?
    const getBody: Option<string>

    constructor (header: Header, body: Body?, getBody: Option<string>)
      ensures this.header == header && this.body == body && this.getBody == getBody
    {
      this.header, this.body, this.getBody := header, body, getBody;
    }
  }

  datatype HttpResponse = HttpResponse(status: int, retryAfter: string, body: Body)

  /** What one call of the base transport was given. */
  datatype Seen = Seen(header: Header, bytes: Option<string>)

  ghost function Unread(b: Body?): Option<string>
    requires b != null ==> b.Valid()
    reads b
  {
    if b == null then None else Some(b.data[b.pos..])
  }

  ghost function Handle(b: Body?): set<object> {
    if b == null then {} else {b}
  }

  /** The innermost RoundTripper: answers with the given reply, reads as much of the request body
      as it likes and closes it, and keeps a log. */
  class Base {
    var seen: seq<Seen>
    var produced: seq<HttpResponse>

    constructor ()
      ensures seen == [] && produced == []
    {
      seen, produced := [], [];
    }

    method RoundTrip(r: Request, reply: Reply) returns (resp: Option<HttpResponse>, err: Option<Error>)
      requires r.body != null ==> r.body.Valid()
      modifies this, Handle(r.body)
      ensures seen == old(seen) + [Seen(old(r.header), old(Unread(r.body)))]
      ensures Answers(reply, resp, err)
      ensures produced == old(produced) + if resp.Some? then [resp.value] else []
      ensures resp.Some? ==> fresh(resp.value.body)
      ensures r.body != null ==> r.body.Valid() && r.body.closed == old(r.body.closed) + 1
    {
      var bytes := None;
      if r.body != null {
        bytes := Some(r.body.data[r.body.pos..]);
        var upTo: nat :| r.body.pos <= upTo <= |r.body.data|;
        r.body.pos := upTo;
        r.body.Close();
      }
      seen := seen + [Seen(r.header, bytes)];
      match reply
      case Failed(e) =>
        resp, err := None, Some(e);
      case Replied(status, retryAfter, data, readError) =>
        var b := new Body(data, readError);
        resp, err := Some(HttpResponse(status, retryAfter, b)), None;
        produced := produced + [resp.value];
    }
  }

  /** The pair a RoundTripper returns for a reply: an error, or an unread, open response. */
  ghost predicate Answers(reply: Reply, resp: Option<HttpResponse>, err: Option<Error>)
    reads if resp.Some? then {resp.value.body} else {}
  {
    match reply
    case Failed(e) => resp.None? && err == Some(e)
    case Replied(status, retryAfter, data, readError) =>
      && resp.Some? && err.None?
      && resp.value.status == status && resp.value.retryAfter == retryAfter
      && resp.value.body.data == data && resp.value.body.readError == readError
      && resp.value.body.pos == 0 && resp.value.body.closed == 0
  }

  /** The log of the request observer. */
  class Observer {
    var log: seq<Header>

    constructor ()
      ensures log == []
    {
      log := [];
    }
  }

  /** One request through the layers below the retry loop. */
  method Dispatch(layers: seq<Layer>, base: Base, obs: Observer, r: Request, reply: Reply)
    returns (resp: Option<HttpResponse>, err: Option<Error>)
    requires r.body != null ==> r.body.Valid()
    modifies base, obs, Handle(r.body)
    ensures base.seen == old(base.seen) + [Seen(Decorate(layers, r.header), old(Unread(r.body)))]
    ensures obs.log == old(obs.log) + Observed(layers, r.header)
    ensures Answers(reply, resp, err)
    ensures base.produced == old(base.produced) + if resp.Some? then [resp.value] else []
    ensures resp.Some? ==> fresh(resp.value.body)
    ensures r.body != null ==> r.body.Valid() && r.body.closed == old(r.body.closed) + 1
    decreases layers
  {
    if layers == [] {
      resp, err := base.RoundTrip(r, reply);
      return;
    }
    match layers[0] {
      case Observe =>
        resp, err := Dispatch(layers[1..], base, obs, r, reply);
        obs.log := obs.log + [r.header];
      case Bearer(token) =>
        var r2 := new Request(Set(r.header, AUTHORIZATION, "Bearer " + token), r.body, r.getBody);
        resp, err := Dispatch(layers[1..], base, obs, r2, reply);
      case Static(fixed) =>
        var h := ApplyStatic(r.header, fixed);
        var r2 := new Request(h, r.body, r.getBody);
        resp, err := Dispatch(layers[1..], base, obs, r2, reply);
    }
  }

  /** Where replayableBody finds the bytes to replay. */
  ghost function SourceOf(r: Request): Source
    requires r.body != null ==> r.body.Valid()
    reads r, r.body
  {
    if r.getBody.Some? then Getter(r.getBody.value)
    else if r.body == null then NoSource
    else if r.body.readError.Some? then Unreadable(r.body.readError.value)
    else Buffered(r.body.data[r.body.pos..])
  }

  method ReplayableBody(req: Request) returns (src: Source)
    requires req.body != null ==> req.body.Valid()
    modifies Handle(req.body)
    ensures src == old(SourceOf(req))
    ensures req.body != null ==> req.body.Valid() && req.body.closed == old(req.body.closed) + 1
  {
    if req.body == null {
      return if req.getBody.Some? then Getter(req.getBody.value) else NoSource;
    }
    if req.getBody.Some? {
      req.body.Close();
      return Getter(req.getBody.value);
    }
    var bytes, err := req.body.ReadAll();
    req.body.Close();
    src := if err.Some? then Unreadable(err.value) else Buffered(bytes);
  }

  /** The bytes every attempt is given. */
  function Payload(src: Source): Option<string> {
    match src
    case Getter(content) => Some(content)
    case Buffered(content) => Some(content)
    case _ => None
  }

  ghost function Bodies(ps: seq<HttpResponse>): set<Body> {
    set r | r in ps :: r.body
  }

  ghost predicate Spent(b: Body)
    reads b
  {
    b.closed == 1 && b.pos == |b.data|
  }

  ghost predicate Untouched(b: Body)
    reads b
  {
    b.closed == 0 && b.pos == 0
  }

  /** The responses have bodies of their own; each was drained and closed exactly once, except that
      the last one is untouched when open. */
  ghost predicate Settled(ps: seq<HttpResponse>, open: bool)
    reads Bodies(ps)
  {
    && (open ==> ps != [])
    && (forall i, j :: 0 <= i < j < |ps| ==> ps[i].body != ps[j].body)
    && (forall i :: 0 <= i < |ps| ==> if open && i == |ps| - 1 then Untouched(ps[i].body) else Spent(ps[i].body))
  }

  /** The pair RoundTrip returns for the end of a trip. */
  ghost predicate Ends(env: Env, end: End, resp: Option<HttpResponse>, err: Option<Error>)
    reads if resp.Some? then {resp.value.body} else {}
  {
    match end
    case Response(i) => env.reply(i).Replied? && Answers(env.reply(i), resp, err)
    case BaseError(e) => resp.None? && err == Some(e)
    case WaitError(e) => resp.None? && err == Some(e)
    case BodyError(e) => resp.None? && err == Some(e)
  }

  function Repeat<T>(n: nat, x: T): seq<T> {
    seq(n, _ => x)
  }

  lemma SettledMore(ps: seq<HttpResponse>, more: seq<HttpResponse>, open: bool)
    requires Settled(ps, false) && |more| <= 1
    requires open ==> more != []
    requires more != [] ==> more[0].body !in Bodies(ps) && if open then Untouched(more[0].body) else Spent(more[0].body)
    ensures Settled(ps + more, open)
  {
    assert forall i :: 0 <= i < |ps| ==> ps[i] in ps && ps[i].body in Bodies(ps);
  }

  function Repeated<T>(n: nat, xs: seq<T>): seq<T> {
    if n == 0 then [] else Repeated(n - 1, xs) + xs
  }

  lemma RepeatMore<T>(n: nat, m: nat, x: T)
    ensures Repeat(n, x) + Repeat(m, x) == Repeat(n + m, x)
  {
  }

  lemma {:induction false} RepeatedMore<T>(n: nat, m: nat, xs: seq<T>)
    ensures Repeated(n, xs) + Repeated(m, xs) == Repeated(n + m, xs)
  {
    if m > 0 {
      RepeatedMore(n, m - 1, xs);
      assert Repeated(n, xs) + (Repeated(m - 1, xs) + xs) == Repeated(n, xs) + Repeated(m - 1, xs) + xs;
    }
  }

  lemma WaitsOne(cfg: RetryConfig, env: Env, a: nat)
    ensures Waits(cfg, env, a, 0) == [] && Waits(cfg, env, a, 1) == [WaitAfter(cfg, env, a)]
  {
  }

  lemma WaitsJoin(cfg: RetryConfig, env: Env, a: nat, n: nat)
    ensures Waits(cfg, env, 0, a) + Waits(cfg, env, a, n) == Waits(cfg, env, 0, a + n)
  {
  }

  /** The logs at some moment. */
  datatype Mark = Mark(seen: seq<Seen>, log: seq<Header>, slept: seq<int>, produced: seq<HttpResponse>)

  /** What a trip has done so far: its calls, its waits and the responses it was given. */
  datatype Account = Account(calls: nat, waits: seq<int>, responses: seq<HttpResponse>)

  /** The logs after mark, once a was added, every call having sent and shown the same. */
  function Extend(mark: Mark, sent: Seen, shown: seq<Header>, a: Account): Mark {
    Mark(mark.seen + Repeat(a.calls, sent), mark.log + Repeated(a.calls, shown), mark.slept + a.waits,
         mark.produced + a.responses)
  }

  function Plus(a: Account, b: Account): Account {
    Account(a.calls + b.calls, a.waits + b.waits, a.responses + b.responses)
  }

  lemma ExtendTwice(mark: Mark, now: Mark, sent: Seen, shown: seq<Header>, a: Account, b: Account)
    requires now == Extend(mark, sent, shown, a)
    ensures Extend(now, sent, shown, b) == Extend(mark, sent, shown, Plus(a, b))
  {
    assert now.seen + Repeat(b.calls, sent) == mark.seen + Repeat(a.calls + b.calls, sent) by {
      RepeatMore(a.calls, b.calls, sent);
      Assoc(mark.seen, Repeat(a.calls, sent), Repeat(b.calls, sent));
    }
    assert now.log + Repeated(b.calls, shown) == mark.log + Repeated(a.calls + b.calls, shown) by {
      RepeatedMore(a.calls, b.calls, shown);
      Assoc(mark.log, Repeated(a.calls, shown), Repeated(b.calls, shown));
    }
    Assoc(mark.slept, a.waits, b.waits);
    Assoc(mark.produced, a.responses, b.responses);
  }

  lemma Assoc<T>(a: seq<T>, b: seq<T>, c: seq<T>)
    ensures (a + b) + c == a + (b + c)
  {
  }

  lemma Once(sent: Seen, shown: seq<Header>)
    ensures Repeat(1, sent) == [sent] && Repeated(1, shown) == shown
    ensures Repeat(0, sent) == [] && Repeated(0, shown) == []
  {
    assert Repeated(1, shown) == Repeated(0, shown) + shown;
  }

  class RetryTransport {
    const cfg: RetryConfig
    const layers: seq<Layer>
    const base: Base
    const obs: Observer
    var slept: seq<int>

    constructor (cfg: RetryConfig, layers: seq<Layer>, base: Base, obs: Observer)
      ensures this.cfg == cfg && this.layers == layers && this.base == base && this.obs == obs && slept == []
    {
      this.cfg, this.layers, this.base, this.obs, slept := cfg, layers, base, obs, [];
    }

    ghost function Now(): Mark
      reads this, base, obs
    {
      Mark(base.seen, obs.log, slept, base.produced)
    }

    /** req.Clone with a fresh copy of the payload, sent down the chain. */
    method Send(req: Request, payload: Option<string>, reply: Reply)
      returns (resp: Option<HttpResponse>, err: Option<Error>, ghost more: seq<HttpResponse>)
      modifies base, obs
      ensures Now() == Extend(old(Now()), Seen(Decorate(layers, req.header), payload), Observed(layers, req.header),
                              Account(1, [], more))
      ensures Answers(reply, resp, err)
      ensures more == if resp.Some? then [resp.value] else []
      ensures resp.Some? ==> fresh(resp.value.body)
    {
      var body: Body? := null;
      if payload.Some? {
        body := new Body(payload.value, None);
      }
      var r2 := new Request(req.header, body, req.getBody);
      resp, err := Dispatch(layers, base, obs, r2, reply);
      more := if resp.Some? then [resp.value] else [];
      Once(Seen(Decorate(layers, req.header), payload), Observed(layers, req.header));
    }

    /** One pass through the loop body: get a body, call the base, and decide. A response that is
        not handed up has been drained and closed. */
    method Pass(req: Request, src: Source, env: Env, attempt: nat)
      returns (resp: Option<HttpResponse>, err: Option<Error>, stop: bool, ghost more: seq<HttpResponse>)
      requires !src.Unreadable? && (src.NoSource? ==> req.body == null) && attempt < Attempts(cfg)
      modifies this`slept, base, obs
      ensures var p := PassAt(cfg, src, env, attempt);
        && Now() == Extend(old(Now()), Seen(Decorate(layers, req.header), Payload(src)), Observed(layers, req.header),
                           Account(p.calls, Waits(cfg, env, attempt, p.waits), more))
        && stop == p.end.Some?
        && (stop ==> Ends(env, p.end.value, resp, err))
      ensures |more| <= 1 && (more != [] ==> fresh(more[0].body))
      ensures var e := PassAt(cfg, src, env, attempt).end;
        if e.Some? && e.value.Response? then more != [] && resp == Some(more[0]) && Untouched(more[0].body)
        else more != [] ==> Spent(more[0].body)
    {
      more := [];
      WaitsOne(cfg, env, attempt);
      if BodyFails(src, env, attempt) {
        Once(Seen(Decorate(layers, req.header), Payload(src)), Observed(layers, req.header));
        return None, env.bodyError(attempt), true, more;
      }
      resp, err, more := Send(req, Payload(src), env.reply(attempt));
      var last := attempt == Attempts(cfg) - 1;
      var d: int;
      if err.Some? {
        if last || !RetryableError(err.value) {
          return resp, err, true, more;
        }
        d := ComputeBackoff(cfg, attempt, 0, env.machine);
      } else {
        if last || resp.value.status !in cfg.retryableStatus {
          return resp, err, true, more;
        }
        d := ComputeBackoff(cfg, attempt, ParseRetryAfter(resp.value.retryAfter, env.machine.until), env.machine);
        var _, _ := resp.value.body.ReadAll();
        resp.value.body.Close();
      }
      slept := slept + [d];
      if env.waitError(attempt).Some? {
        return None, env.waitError(attempt), true, more;
      }
      stop := false;
    }

    /** A pass, with the account of the trip so far carried along. */
    method CountedPass(req: Request, src: Source, env: Env, attempt: nat, ghost mark: Mark, ghost a: Account)
      returns (resp: Option<HttpResponse>, err: Option<Error>, stop: bool, ghost more: seq<HttpResponse>,
          ghost a': Account)
      requires !src.Unreadable? && (src.NoSource? ==> req.body == null) && attempt < Attempts(cfg)
      requires a.calls == attempt && a.waits == Waits(cfg, env, 0, attempt)
      requires Now() == Extend(mark, Seen(Decorate(layers, req.header), Payload(src)), Observed(layers, req.header), a)
      modifies this`slept, base, obs
      ensures var p := PassAt(cfg, src, env, attempt);
        && stop == p.end.Some?
        && (stop ==> Ends(env, p.end.value, resp, err))
        && a' == Account(attempt + p.calls, Waits(cfg, env, 0, attempt + p.waits), a.responses + more)
      ensures Now() == Extend(mark, Seen(Decorate(layers, req.header), Payload(src)), Observed(layers, req.header), a')
      ensures |more| <= 1 && (more != [] ==> fresh(more[0].body))
      ensures var e := PassAt(cfg, src, env, attempt).end;
        if e.Some? && e.value.Response? then more != [] && resp == Some(more[0]) && Untouched(more[0].body)
        else more != [] ==> Spent(more[0].body)
    {
      ghost var p, before := PassAt(cfg, src, env, attempt), Now();
      resp, err, stop, more := Pass(req, src, env, attempt);
      ghost var b := Account(p.calls, Waits(cfg, env, attempt, p.waits), more);
      a' := Plus(a, b);
      WaitsJoin(cfg, env, attempt, p.waits);
      ExtendTwice(mark, before, Seen(Decorate(layers, req.header), Payload(src)), Observed(layers, req.header), a, b);
    }

    /** A counted pass, with its responses kept settled. */
    method SettledPass(req: Request, src: Source, env: Env, attempt: nat, ghost mark: Mark, ghost a: Account)
      returns (resp: Option<HttpResponse>, err: Option<Error>, stop: bool, ghost a': Account)
      requires !src.Unreadable? && (src.NoSource? ==> req.body == null) && attempt < Attempts(cfg)
      requires a.calls == attempt && a.waits == Waits(cfg, env, 0, attempt)
      requires Now() == Extend(mark, Seen(Decorate(layers, req.header), Payload(src)), Observed(layers, req.header), a)
      requires Settled(a.responses, false)
      modifies this`slept, base, obs
      ensures var p := PassAt(cfg, src, env, attempt);
        && stop == p.end.Some?
        && (stop ==> Ends(env, p.end.value, resp, err))
        && a'.calls == attempt + p.calls && a'.waits == Waits(cfg, env, 0, attempt + p.waits)
        && Settled(a'.responses, stop && p.end.value.Response?)
        && (stop && p.end.value.Response? ==> a'.responses != [] && resp == Some(a'.responses[|a'.responses| - 1]))
      ensures Now() == Extend(mark, Seen(Decorate(layers, req.header), Payload(src)), Observed(layers, req.header), a')
      ensures forall r :: r in a'.responses ==> r in a.responses || fresh(r.body)
    {
      ghost var more;
      resp, err, stop, more, a' := CountedPass(req, src, env, attempt, mark, a);
      SettledMore(a.responses, more, stop && PassAt(cfg, src, env, attempt).end.value.Response?);
    }

    /** The loop of RoundTrip; t is the trip it makes. */
    method Run(req: Request, src: Source, env: Env, ghost t: Trip)
      returns (resp: Option<HttpResponse>, err: Option<Error>, ghost a: Account)
      requires !src.Unreadable? && (src.NoSource? ==> req.body == null)
      requires t == Loop(cfg, src, env, 0)
      modifies this`slept, base, obs
      ensures a.calls == t.calls && a.waits == Waits(cfg, env, 0, t.waits)
      ensures Now() == Extend(old(Now()), Seen(Decorate(layers, req.header), Payload(src)), Observed(layers,
        req.header), a)
      ensures Settled(a.responses, t.end.Response?)
      ensures Ends(env, t.end, resp, err)
      ensures t.end.Response? ==> a.responses != [] && resp == Some(a.responses[|a.responses| - 1])
      ensures forall r :: r in a.responses ==> fresh(r.body)
    {
      var attempt: nat := 0;
      a := Account(0, [], []);
      ghost var mark := Now();
      while true
        invariant attempt < Attempts(cfg) && t == Loop(cfg, src, env, attempt)
        invariant a.calls == attempt && a.waits == Waits(cfg, env, 0, attempt)
        invariant Now() == Extend(mark, Seen(Decorate(layers, req.header), Payload(src)), Observed(layers,
          req.header), a)
        invariant Settled(a.responses, false)
        invariant forall r :: r in a.responses ==> fresh(r.body)
        decreases Attempts(cfg) - attempt
      {
        var stop: bool;
        resp, err, stop, a := SettledPass(req, src, env, attempt, mark, a);
        if stop {
          return;
        }
        attempt := attempt + 1;
      }
    }

    /** RoundTrip, with its logs told by the account of the trip. */
    method AccountedTrip(req: Request, env: Env)
      returns (resp: Option<HttpResponse>, err: Option<Error>, ghost a: Account)
      requires req.body != null ==> req.body.Valid()
      modifies this`slept, base, obs, Handle(req.body)
      ensures var src := old(SourceOf(req));
        var t := Retry.RoundTrip(cfg, src, env);
        var bytes := if Attempts(cfg) == 1 then old(Unread(req.body)) else Payload(src);
        && a.calls == t.calls && a.waits == Waits(cfg, env, 0, t.waits)
        && Now() == Extend(old(Now()), Seen(Decorate(layers, req.header), bytes), Observed(layers, req.header), a)
        && Settled(a.responses, t.end.Response?)
        && Ends(env, t.end, resp, err)
        && (t.end.Response? ==> a.responses != [] && resp == Some(a.responses[|a.responses| - 1]))
      ensures forall r :: r in a.responses ==> fresh(r.body)
      ensures req.body != null ==> req.body.closed == old(req.body.closed) + 1
    {
      a := Account(0, [], []);
      if Attempts(cfg) == 1 {
        resp, err := Dispatch(layers, base, obs, req, env.reply(0));
        Once(Seen(Decorate(layers, req.header), old(Unread(req.body))), Observed(layers, req.header));
        a := Account(1, [], if resp.Some? then [resp.value] else []);
        return;
      }
      var src := ReplayableBody(req);
      if src.Unreadable? {
        return None, Some(src.err), a;
      }
      resp, err, a := Run(req, src, env, Loop(cfg, src, env, 0));
    }

    /** The whole trip is Retry.RoundTrip's: that many calls and waits and that result. Every call
        was shown the same decorated headers and the same complete bytes, the observers ran once
        per call, the request's own fields were not written, its body was closed exactly once, and
        every response the base transport produced was drained and closed exactly once, except the
        one handed up, which is still open and unread. */
    method RoundTrip(req: Request, env: Env)
      returns (resp: Option<HttpResponse>, err: Option<Error>, ghost a: Account)
      requires req.body != null ==> req.body.Valid()
      modifies this`slept, base, obs, Handle(req.body)
      ensures var src := old(SourceOf(req));
        var t := Retry.RoundTrip(cfg, src, env);
        var bytes := if Attempts(cfg) == 1 then old(Unread(req.body)) else Payload(src);
        && a.calls == t.calls && a.waits == Waits(cfg, env, 0, t.waits)
        && Now() == Extend(old(Now()), Seen(Decorate(layers, req.header), bytes), Observed(layers, req.header), a)
        && Settled(a.responses, t.end.Response?)
        && Ends(env, t.end, resp, err)
        && (t.end.Response? ==> a.responses != [] && resp == Some(a.responses[|a.responses| - 1]))
      ensures forall r :: r in a.responses ==> fresh(r.body)
      ensures req.body != null ==> req.body.closed == old(req.body.closed) + 1
      // every call is given the whole body: what GetBody delivers, else what was still unread
      ensures |base.seen| == |old(base.seen)| + a.calls && old(base.seen) <= base.seen
      ensures forall i :: |old(base.seen)| <= i < |base.seen| ==>
        && base.seen[i].header == Decorate(layers, req.header)
        && base.seen[i].bytes ==
           if cfg.maxAttempts > 1 && req.getBody.Some? then req.getBody
           else if req.body == null then None
           else Some(req.body.data[old(if req.body == null then 0 else req.body.pos)..])
      ensures cfg.maxAttempts > 1 && req.getBody.None? && req.body != null && req.body.readError.Some? ==>
        a.calls == 0 && resp.None? && err == req.body.readError
      // every response is accounted for: drained and closed once, the one handed up open and unread
      ensures base.produced == old(base.produced) + a.responses && slept == old(slept) + a.waits
      ensures forall i, j :: 0 <= i < j < |a.responses| ==> a.responses[i].body != a.responses[j].body
      ensures forall i :: 0 <= i < |a.responses| ==>
        var b := a.responses[i].body;
        if resp.Some? && i == |a.responses| - 1 then b.closed == 0 && b.pos == 0
        else b.closed == 1 && b.pos == |b.data|
      // the result is that of the trip
      ensures var end := Retry.RoundTrip(cfg, old(SourceOf(req)), env).end;
        match end
        case Response(i) =>
          && env.reply(i).Replied? && resp.Some? && err.None?
          && a.responses != [] && resp.value == a.responses[|a.responses| - 1]
          && resp.value.status == env.reply(i).status && resp.value.retryAfter == env.reply(i).retryAfter
          && resp.value.body.data == env.reply(i).data && resp.value.body.readError == env.reply(i).readError
        case _ => resp.None? && err == Some(end.err)
    {
      hide Loop, Decorate, Observed;
      resp, err, a := AccountedTrip(req, env);
      assert cfg.maxAttempts > 1 <==> Attempts(cfg) != 1;
    }
  }
}
