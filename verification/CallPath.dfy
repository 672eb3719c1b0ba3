/** Client.BareDo, Client.Do, Client.do and the streaming reader on top of the transport chain:
    which error a call returns, and that no response body leaks or is closed twice. */
module CallPath {
  import opened Basics
  import opened Errors
  import opened Backoff
  import opened Retry
  import opened Transport

  /** The raw response and the token lifted from a decoded page. */
  datatype ApiResponse = ApiResponse(http: HttpResponse, continuationToken: string)

  /** What Do does with a 2xx body: drain it, copy it to an io.Writer, or decode it as JSON.
      decodeError is what the decoder returns, other than io.EOF; token is the decoded value's
      continuation token when it has one. */
  datatype Target =
    | Discard
    | Writer
    | Json(decodeError: Option<Error>, token: Option<string>)

  /** The responses have distinct bodies and each was closed exactly once. */
  ghost predicate AllClosedOnce(ps: seq<HttpResponse>)
    reads Bodies(ps)
  {
    && (forall i, j :: 0 <= i < j < |ps| ==> ps[i].body != ps[j].body)
    && (forall i :: 0 <= i < |ps| ==> ps[i].body.closed == 1)
  }

  /** The same, but for the last response, which is still open. */
  ghost predicate OpenLast(ps: seq<HttpResponse>)
    reads Bodies(ps)
  {
    && ps != []
    && (forall i, j :: 0 <= i < j < |ps| ==> ps[i].body != ps[j].body)
    && (forall i :: 0 <= i < |ps| - 1 ==> ps[i].body.closed == 1)
    && ps[|ps| - 1].body.closed == 0
  }

  /** The deferred resp.Body.Close(). */
  method CloseLast(body: Body, ghost ps: seq<HttpResponse>)
    requires OpenLast(ps) && body == ps[|ps| - 1].body
    modifies body`closed
    ensures AllClosedOnce(ps)
  {
    body.Close();
  }

  /** What Do does with a 2xx response, up to and including its deferred Close. */
  method Consume(r: ApiResponse, target: Target, ghost ps: seq<HttpResponse>)
    returns (resp: ApiResponse, err: Option<Error>)
    requires OpenLast(ps) && r.http == ps[|ps| - 1] && r.http.body.pos == 0 && r.continuationToken == ""
    modifies r.http.body
    ensures AllClosedOnce(ps)
    ensures err == TakeError(r.http.body.readError, target)
    ensures resp == r.(continuationToken := LiftedToken(err, target))
  {
    resp, err := r, None;
    var body := r.http.body;
    match target {
      case Discard =>
        var _, _ := body.ReadAll();
      case Writer =>
        var _, e := body.ReadAll();
        err := e;
      case Json(decodeError, token) =>
        var upTo: nat :| body.pos <= upTo <= |body.data|;
        body.pos := upTo;
        err := decodeError;
        if err.None? && token.Some? {
          resp := resp.(continuationToken := token.value);
        }
    }
    CloseLast(body, ps);
  }

  /** How taking a 2xx body can fail; draining it never does. */
  function TakeError(readError: Option<Error>, target: Target): Option<Error> {
    match target
    case Discard => None
    case Writer => readError
    case Json(decodeError, _) => decodeError
  }

  /** What http.Client makes of an error of the transport chain: a *url.Error that wraps it, and is itself
      a net.Error. */
  function UrlError(e: Error): (u: Error)
    ensures forall k :: Is(e, k) ==> Is(u, k)
  {
    var u := Error(Net("url.Error"), [e]);
    assert u.wraps[0] == e;
    u
  }

  /** The error of a call, from the end of its trip alone: a 2xx response gives none unless the
      target fails to take it, any other response its classification, anything else its error, wrapped. */
  function ErrorOf(env: Env, end: End, target: Target): Option<Error> {
    match end
    case Response(i) =>
      (match env.reply(i)
       case Replied(status, _, _, readError) =>
         if !Success(status) then Classify(status)
         else TakeError(readError, target)
       case Failed(e) => Some(UrlError(e)))
    case BaseError(e) => Some(UrlError(e))
    case WaitError(e) => Some(UrlError(e))
    case BodyError(e) => Some(UrlError(e))
  }

  /** The trip of a request whose bytes come from src. */
  function TripOf(rt: RetryTransport, src: Source, env: Env): Trip {
    Retry.RoundTrip(rt.cfg, src, env)
  }

  /** The token Do puts on a response. */
  function LiftedToken(err: Option<Error>, target: Target): string {
    if err.None? && target.Json? && target.token.Some? then target.token.value else ""
  }

  /** The trip of a request with those bytes ended with a 2xx response to its last call. */
  ghost predicate AnsweredIn(retry: RetryConfig, env: Env, bytes: string) {
    var t := Retry.RoundTrip(retry, Getter(bytes), env);
    && t.calls > 0 && t.end == End.Response(t.calls - 1)
    && env.reply(t.calls - 1).Replied? && 200 <= env.reply(t.calls - 1).status <= 299
  }

  /** The bytes every call for a request is given. */
  ghost function WholeBody(rt: RetryTransport, req: Request): Option<string>
    requires req.body != null ==> req.body.Valid()
    reads req, req.body
  {
    if rt.cfg.maxAttempts > 1 && req.getBody.Some? then req.getBody else Unread(req.body)
  }

  /** The base transport was called so many times more, with those bytes. */
  ghost predicate SawBytes(before: seq<Seen>, now: seq<Seen>, calls: nat, bytes: Option<string>) {
    && |now| == |before| + calls && before <= now
    && forall i :: |before| <= i < |now| ==> now[i].bytes == bytes
  }

  method BareDo(rt: RetryTransport, req: Request, env: Env)
    returns (resp: Option<ApiResponse>, err: Option<Error>, ghost a: Account)
    requires req.body != null ==> req.body.Valid()
    modifies rt`slept, rt.base, rt.obs, Handle(req.body)
    ensures SawBytes(old(rt.base.seen), rt.base.seen, a.calls, old(WholeBody(rt, req)))
    ensures var t := TripOf(rt, old(SourceOf(req)), env);
      && a.calls == t.calls
      && (resp.Some? <==> t.end.Response?)
      && err == ErrorOf(env, t.end, Discard)
      && (resp.Some? ==>
            && a.responses != [] && resp.value == ApiResponse(a.responses[|a.responses| - 1], "")
            && env.reply(t.end.i).Replied?
            && resp.value.http.status == env.reply(t.end.i).status
            && resp.value.http.body.data == env.reply(t.end.i).data
            && resp.value.http.body.readError == env.reply(t.end.i).readError)
      && Settled(a.responses, err.None?)
    ensures forall r :: r in a.responses ==> fresh(r.body)
    ensures rt.base.produced == old(rt.base.produced) + a.responses
    ensures req.body != null ==> req.body.closed == old(req.body.closed) + 1
  {
    hide Retry.RoundTrip, Classify;
    var httpResp;
    httpResp, err, a := rt.RoundTrip(req, env);
    assert rt.cfg.maxAttempts > 1 <==> Attempts(rt.cfg) != 1;
    if err.Some? {
      return None, Some(UrlError(err.value)), a;
    }
    resp := Some(ApiResponse(httpResp.value, ""));
    assert httpResp.value in a.responses;
    if !Success(httpResp.value.status) {
      var _, _ := httpResp.value.body.ReadAll();
      httpResp.value.body.Close();
      err := Classify(httpResp.value.status);
    }
  }

  /** What Do returns for the end of a trip: without a response the wrapped error of the chain; the typed error
      of a response that is not 2xx; the error of copying a 2xx body to a Writer, or of decoding it, other
      than io.EOF; and the decoded token exactly when there is no error. */
  ghost predicate Returns(env: Env, end: End, target: Target, resp: Option<ApiResponse>, err: Option<Error>) {
    match end
    case Response(i) =>
      && env.reply(i).Replied? && resp.Some? && resp.value.http.status == env.reply(i).status
      && var token := resp.value.continuationToken;
      if env.reply(i).status < 200 || env.reply(i).status > 299 then
        err.Some? && err == Classify(env.reply(i).status) && token == ""
      else (match target
            case Discard => err.None? && token == ""
            case Writer => err == env.reply(i).readError && token == ""
            case Json(decodeError, decoded) =>
              err == decodeError && token == if err.None? && decoded.Some? then decoded.value else "")
    case _ => resp.None? && err.Some? && err.value.wraps == [end.err] && err.value.kind.Net?
  }

  method Do(rt: RetryTransport, req: Request, env: Env, target: Target)
    returns (resp: Option<ApiResponse>, err: Option<Error>, ghost a: Account)
    requires req.body != null ==> req.body.Valid()
    modifies rt`slept, rt.base, rt.obs, Handle(req.body)
    ensures SawBytes(old(rt.base.seen), rt.base.seen, a.calls, old(WholeBody(rt, req)))
    ensures Returns(env, Retry.RoundTrip(rt.cfg, old(SourceOf(req)), env).end, target, resp, err)
    ensures forall r :: r in a.responses ==> r.body.closed == 1
    ensures var t := TripOf(rt, old(SourceOf(req)), env);
      && a.calls == t.calls
      && (resp.Some? <==> t.end.Response?)
      && err == ErrorOf(env, t.end, target)
      && (resp.Some? ==>
            && a.responses != [] && resp.value == ApiResponse(a.responses[|a.responses| - 1], LiftedToken(err, target)))
    ensures AllClosedOnce(a.responses) && forall r :: r in a.responses ==> fresh(r.body)
    ensures rt.base.produced == old(rt.base.produced) + a.responses
    ensures req.body != null ==> req.body.closed == old(req.body.closed) + 1
  {
    resp, err, a := BareDo(rt, req, env);
    if err.Some? {
      return;
    }
    assert resp.value.http in a.responses;
    var r;
    r, err := Consume(resp.value, target, a.responses);
    resp := Some(r);
  }

  /** The caller's OnResponse callback. */
  class Callback {
    var fired: seq<ApiResponse>

    constructor ()
      ensures fired == []
    {
      fired := [];
    }
  }

  /** do: the callback fires exactly once when a response reached Do, on API and decode errors
      too, and never otherwise; all responses of the call are closed by then. */
  method DoNotify(rt: RetryTransport, req: Request, env: Env, target: Target, onResponse: Callback?)
    returns (err: Option<Error>, ghost a: Account)
    requires req.body != null ==> req.body.Valid()
    modifies rt`slept, rt.base, rt.obs, Handle(req.body), onResponse
    ensures var t := TripOf(rt, old(SourceOf(req)), env);
      && err == ErrorOf(env, t.end, target)
      && (onResponse != null ==>
            if t.end.Response? then
              a.responses != []
              && onResponse.fired ==
                 old(onResponse.fired) + [ApiResponse(a.responses[|a.responses| - 1], LiftedToken(err, target))]
            else onResponse.fired == old(onResponse.fired))
    ensures AllClosedOnce(a.responses)
    ensures rt.base.produced == old(rt.base.produced) + a.responses
  {
    var resp;
    resp, err, a := Do(rt, req, env, target);
    if onResponse != null && resp.Some? {
      onResponse.fired := onResponse.fired + [resp.value];
    }
  }

  // ---------------------------------------------------------------- streaming

  /** How the JSON decoder reads the values of a stream: line, a value on a line of its own, and tail, what
      is left after the last newline and ends with the body's read error or, without one, with EOF. */
  datatype Decoder = Decoder(line: string -> Result<string>, tail: (string, Option<Error>) -> Result<string>)

  /** The position of the first newline, or -1. */
  function Newline(s: string): (i: int)
    ensures -1 <= i < |s|
  {
    if s == "" then -1
    else if s[0] == '\n' then 0
    else
      var i := Newline(s[1..]);
      if i < 0 then -1 else i + 1
  }

  /** The character the decoder's More looks at: the first one that is not white space. */
  function Peek(s: string): (c: Option<char>)
    ensures s == "" ==> c.None?
  {
    if s == "" then None
    else if s[0] in " \t\r\n" then Peek(s[1..])
    else Some(s[0])
  }

  /** More reports another value. It does not on a read error, nor before a closing bracket or brace. */
  predicate More(s: string) {
    Peek(s).Some? && Peek(s).value != ']' && Peek(s).value != '}'
  }

  /** The text up to the next newline, and what follows it. */
  function Front(data: string): string {
    if Newline(data) < 0 then data else data[..Newline(data)]
  }

  function Rest(data: string): (rest: string)
    ensures data != "" ==> |rest| < |data|
  {
    if Newline(data) < 0 then "" else data[Newline(data) + 1..]
  }

  function Next(dec: Decoder, data: string, readError: Option<Error>): Result<string> {
    if Newline(data) < 0 then dec.tail(data, readError) else dec.line(Front(data))
  }

  /** What a stream delivers to a consumer that never breaks: one item per line, up to the first that does
      not decode. */
  function StreamItems(dec: Decoder, data: string, readError: Option<Error>)
    : (items: seq<Result<string>>)
    ensures data == "" ==> items == []
    decreases |data|
  {
    if data == "" then []
    else if Peek(Front(data)).None? then StreamItems(dec, Rest(data), readError)
    else if !More(Front(data)) then []
    else
      var item := Next(dec, data, readError);
      [item] + if item.Fail? then [] else StreamItems(dec, Rest(data), readError)
  }

  function FirstOf<T>(n: nat, xs: seq<T>): seq<T> {
    if |xs| <= n then xs else xs[..n]
  }

  /** One turn of the decoding loop. */
  lemma StreamStep(dec: Decoder, data: string, readError: Option<Error>)
    requires data != ""
    ensures var all, front := StreamItems(dec, data, readError), Front(data);
      if Peek(front).None? then all == StreamItems(dec, Rest(data), readError)
      else if !More(front) then all == []
      else
        var item := Next(dec, data, readError);
        all == [item] + if item.Fail? then [] else StreamItems(dec, Rest(data), readError)
  {
  }

  /** Only the last item can be a failure. */
  lemma {:induction false} FailureIsLast(dec: Decoder, data: string, readError: Option<Error>, i: nat)
    requires i < |StreamItems(dec, data, readError)| && StreamItems(dec, data, readError)[i].Fail?
    ensures i == |StreamItems(dec, data, readError)| - 1
    decreases |data|
  {
    hide StreamItems, Front, Rest, Peek, More, Next;
    StreamStep(dec, data, readError);
    if Peek(Front(data)).None? {
      FailureIsLast(dec, Rest(data), readError, i);
    } else if i > 0 {
      FailureIsLast(dec, Rest(data), readError, i - 1);
    }
  }

  /** Reading comes to an unterminated last line that begins a value, if all lines before it decode. */
  predicate EndsInValue(data: string)
    decreases |data|
  {
    data != "" && if Peek(Front(data)).None? then EndsInValue(Rest(data))
                  else More(Front(data)) && (Newline(data) < 0 || EndsInValue(Rest(data)))
  }

  lemma {:induction false} UnseenError(dec: Decoder, data: string, readError: Option<Error>)
    requires !EndsInValue(data)
    ensures StreamItems(dec, data, readError) == StreamItems(dec, data, None)
    decreases |data|
  {
    if data != "" && (Peek(Front(data)).None? || More(Front(data))) {
      UnseenError(dec, Rest(data), readError);
    }
  }

  /** Every line decodes, and an unterminated one fails when the body does. */
  const CAREFUL := Decoder(_ => Ok(""), (_: string, readError: Option<Error>) =>
    if readError.Some? then Fail(readError.value) else Ok(""))

  lemma {:induction false} SeenError(data: string, e: Error)
    requires EndsInValue(data)
    ensures StreamItems(CAREFUL, data, Some(e)) != StreamItems(CAREFUL, data, None)
    decreases |data|
  {
    if Peek(Front(data)).None? || Newline(data) >= 0 {
      SeenError(Rest(data), e);
      var seen, unseen := StreamItems(CAREFUL, Rest(data), Some(e)), StreamItems(CAREFUL, Rest(data), None);
      assert ([Ok("")] + seen)[1..] == seen && ([Ok("")] + unseen)[1..] == unseen;
    } else {
      assert Next(CAREFUL, data, Some(e)) == Fail(e) && Next(CAREFUL, data, None) == Ok("");
      assert StreamItems(CAREFUL, data, Some(e))[0] == Fail(e);
      assert StreamItems(CAREFUL, data, None)[0] == Ok("");
    }
  }

  /** A response that breaks off is told from one that is complete only where it breaks off inside a value:
      cut between two lines, the stream just ends, and no error is yielded. */
  lemma BrokenStreamMeans(data: string, e: Error)
    ensures (forall dec :: StreamItems(dec, data, Some(e)) == StreamItems(dec, data, None)) <==> !EndsInValue(data)
  {
    if EndsInValue(data) {
      SeenError(data, e);
    } else {
      forall dec
        ensures StreamItems(dec, data, Some(e)) == StreamItems(dec, data, None)
      {
        UnseenError(dec, data, Some(e));
      }
    }
  }

  /** White space as the decoder skips it, within a line. */
  predicate Blank(s: string) {
    forall i :: 0 <= i < |s| ==> s[i] in {' ', '\t', '\r'}
  }

  lemma {:induction false} NewlineAfter(line: string, rest: string)
    requires '\n' !in line
    ensures Newline(line) == -1 && Newline(line + "\n" + rest) == |line|
  {
    if line != "" {
      NewlineAfter(line[1..], rest);
      assert (line + "\n" + rest)[1..] == line[1..] + "\n" + rest;
    }
  }

  lemma {:induction false} PeekPast(pad: string, more: string)
    requires Blank(pad)
    ensures Peek(pad + more) == Peek(more)
  {
    if pad == "" {
      assert pad + more == more;
    } else {
      PeekPast(pad[1..], more);
      assert (pad + more)[1..] == pad[1..] + more;
      assert (pad + more)[0] == pad[0];
    }
  }

  lemma SplitLine(line: string, rest: string)
    requires '\n' !in line
    ensures Front(line + "\n" + rest) == line && Rest(line + "\n" + rest) == rest
    ensures Front(line) == line && Rest(line) == ""
  {
    NewlineAfter(line, rest);
    var data := line + "\n" + rest;
    assert data[..|line|] == line && data[|line| + 1..] == rest;
  }

  /** A blank line delivers nothing. */
  lemma BlankLine(dec: Decoder, pad: string, rest: string, readError: Option<Error>)
    requires Blank(pad)
    ensures StreamItems(dec, pad + "\n" + rest, readError) == StreamItems(dec, rest, readError)
    ensures StreamItems(dec, pad, readError) == []
  {
    assert '\n' !in pad;
    SplitLine(pad, rest);
    PeekPast(pad, "");
    assert pad + "" == pad;
  }

  /** A line that begins with c delivers the value it decodes to and goes on with the next line, or delivers the
      failure and ends; at a closing bracket or brace the stream ends. An unterminated last line is decoded with
      whatever error the body ends in. */
  lemma ValueLine(dec: Decoder, pad: string, c: char, more: string, rest: string, readError: Option<Error>)
    requires Blank(pad) && c !in {' ', '\t', '\r', '\n'} && '\n' !in more
    ensures var line := pad + ([c] + more);
      StreamItems(dec, line + "\n" + rest, readError) ==
        if c == ']' || c == '}' then []
        else if dec.line(line).Ok? then [dec.line(line)] + StreamItems(dec, rest, readError)
        else [dec.line(line)]
    ensures var line := pad + ([c] + more);
      StreamItems(dec, line, readError) == if c == ']' || c == '}' then [] else [dec.tail(line, readError)]
  {
    var line := pad + ([c] + more);
    assert '\n' !in pad && '\n' !in line;
    SplitLine(line, rest);
    NewlineAfter(line, rest);
    PeekPast(pad, [c] + more);
    hide Front, Rest, Newline, Peek;
    StreamStep(dec, line + "\n" + rest, readError);
    StreamStep(dec, line, readError);
    assert Peek([c] + more) == Some(c) by { PeekHead(c, more); }
  }

  lemma PeekHead(c: char, more: string)
    requires c !in {' ', '\t', '\r', '\n'}
    ensures Peek([c] + more) == Some(c)
  {
    assert ([c] + more)[0] == c;
  }

  /** The decoding loop over a response body. */
  method ReadStream(body: Body, dec: Decoder, breakAt: nat) returns (yielded: seq<Result<string>>)
    requires body.pos == 0
    modifies body`pos
    ensures yielded == FirstOf(breakAt + 1, StreamItems(dec, body.data, body.readError))
  {
    hide StreamItems, Front, Rest, Peek, More, Next;
    yielded := [];
    var left := body.data;
    ghost var all := StreamItems(dec, left, body.readError);
    while |yielded| <= breakAt && left != ""
      invariant |yielded| <= breakAt + 1
      invariant all == yielded + StreamItems(dec, left, body.readError)
      decreases |left|
    {
      StreamStep(dec, left, body.readError);
      var front := Front(left);
      if Peek(front).Some? {
        if !More(front) {
          return;
        }
        var item := Next(dec, left, body.readError);
        yielded := yielded + [item];
        if item.Fail? {
          return;
        }
      }
      left := Rest(left);
      body.pos := |body.data| - |left|;
    }
  }

  /** StreamedListObjects against a consumer that breaks when it is handed item number breakAt: it is handed
      the first breakAt + 1 items of the stream, and the response is closed exactly once however the loop
      ends. A call that fails delivers its error, once. */
  method Stream(rt: RetryTransport, req: Request, env: Env, dec: Decoder, breakAt: nat)
    returns (yielded: seq<Result<string>>, ghost a: Account)
    requires req.body != null ==> req.body.Valid()
    modifies rt`slept, rt.base, rt.obs, Handle(req.body)
    ensures var t := TripOf(rt, old(SourceOf(req)), env);
      var e := ErrorOf(env, t.end, Discard);
      if e.Some? then yielded == [Fail(e.value)]
      else
        && t.end.Response? && env.reply(t.end.i).Replied?
        && var reply := env.reply(t.end.i);
        && yielded == FirstOf(breakAt + 1, StreamItems(dec, reply.data, reply.readError))
    ensures AllClosedOnce(a.responses)
    ensures rt.base.produced == old(rt.base.produced) + a.responses
  {
    hide StreamItems, FirstOf;
    var resp, err;
    resp, err, a := BareDo(rt, req, env);
    if err.Some? {
      return [Fail(err.value)], a;
    }
    assert resp.value.http in a.responses;
    yielded := ReadStream(resp.value.http.body, dec, breakAt);
    CloseLast(resp.value.http.body, a.responses);
  }
}
