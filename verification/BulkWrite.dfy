/** Tuples.WriteTuples and DeleteTuples: chunk, fan out, attribute each chunk's error to its
    tuples; and the helpers that read the per-tuple report. */
module BulkWrite {
  import opened Basics
  import opened Errors
  import opened Backoff
  import opened Retry
  import opened CallPath
  import opened Headers
  import opened Transport
  import opened Chunking
  import opened Client
  import Fanout

  datatype TupleKey = TupleKey(user: string, relation: string, obj: string, condition: Option<string>)

  datatype WriteStatus = WriteSuccess | WriteFailure

  datatype TupleResult = TupleResult(key: TupleKey, status: WriteStatus, err: Option<Error>)

  datatype Block = Block(tupleKeys: seq<TupleKey>, onDuplicate: string, onMissing: string)

  datatype WriteRequest = WriteRequest(writes: Option<Block>, deletes: Option<Block>, modelID: string)

  /** The effective settings of one call: client defaults merged with the request options. */
  datatype Settings = Settings(
    callStore: string, clientStore: string,
    callModel: string, clientModel: string,
    transaction: bool, maxPerChunk: int, maxParallel: int,
    onDuplicate: string, onMissing: string,
    retry: RetryConfig
  )

  /** What happens to one request: newRequest may fail, otherwise the transport runs in env. */
  datatype Exchange = Exchange(buildError: Option<Error>, env: Env)

  /** What happens to request number i to a path with a body, which may depend on all three; encode is how
      a body goes on the wire. */
  datatype World = World(request: (nat, string, string) -> Exchange, encode: WriteRequest -> string)

  const DEFAULT_MAX_PER_CHUNK := 50

  function BuildBody(s: Settings, del: bool, chunk: seq<TupleKey>): WriteRequest {
    if del then WriteRequest(None, Some(Block(chunk, "", s.onMissing)), ModelFor(s.callModel, s.clientModel))
    else WriteRequest(Some(Block(chunk, s.onDuplicate, "")), None, ModelFor(s.callModel, s.clientModel))
  }

  function WritePath(store: string): string {
    "/stores/" + store + "/write"
  }

  /** The error of an exchange whose request was built with those bytes, replayable through GetBody. */
  function Outcome(retry: RetryConfig, x: Exchange, bytes: string): Option<Error> {
    if x.buildError.Some? then x.buildError
    else ErrorOf(x.env, Retry.RoundTrip(retry, Getter(bytes), x.env).end, Discard)
  }

  /** send(chunk) as request number i. */
  function Send(s: Settings, store: string, del: bool, chunk: seq<TupleKey>, w: World, i: nat): Option<Error> {
    var bytes := w.encode(BuildBody(s, del, chunk));
    Outcome(s.retry, w.request(i, WritePath(store), bytes), bytes)
  }

  /** b is the request body for a chunk: a write or a delete of exactly its keys, with the option of its kind,
      under the call's model or else the client's. */
  predicate IsBody(b: WriteRequest, s: Settings, del: bool, chunk: seq<TupleKey>) {
    && (if del then b.writes == None && b.deletes == Some(Block(chunk, "", s.onMissing))
        else b.deletes == None && b.writes == Some(Block(chunk, s.onDuplicate, "")))
    && b.modelID == if s.callModel != "" then s.callModel else s.clientModel
  }

  /** send(chunk) through the call path: every call of the base transport is given the whole encoded body of
      that chunk, every response is closed, and the error is Send's. */
  method SendRequest(rt: RetryTransport, header: Header, s: Settings, store: string, del: bool, chunk: seq<TupleKey>,
      w: World, i: nat)
    returns (err: Option<Error>, ghost a: Account, ghost b: WriteRequest)
    requires rt.cfg == s.retry
    modifies rt`slept, rt.base, rt.obs
    ensures IsBody(b, s, del, chunk)
    ensures var x := w.request(i, "/stores/" + store + "/write", w.encode(b));
      if x.buildError.Some? then err == x.buildError && a.calls == 0
      else a.calls == Retry.RoundTrip(s.retry, Getter(w.encode(b)), x.env).calls
    ensures SawBytes(old(rt.base.seen), rt.base.seen, a.calls, Some(w.encode(b)))
    ensures rt.base.produced == old(rt.base.produced) + a.responses
    ensures forall r :: r in a.responses ==> r.body.closed == 1
    ensures err == Send(s, store, del, chunk, w, i)
  {
    hide Retry.RoundTrip;
    var block := Block(chunk, "", "");
    var body := WriteRequest(None, None, ModelFor(s.callModel, s.clientModel));
    if del {
      block := block.(onMissing := s.onMissing);
      body := body.(deletes := Some(block));
    } else {
      block := block.(onDuplicate := s.onDuplicate);
      body := body.(writes := Some(block));
    }
    b, a := body, Account(0, [], []);
    var bytes := w.encode(body);
    var x := w.request(i, "/stores/" + store + "/write", bytes);
    if x.buildError.Some? {
      return x.buildError, a, b;
    }
    var reader := new Body(bytes, None);
    var req := new Transport.Request(header, reader, Some(bytes));
    var resp;
    resp, err, a := Do(rt, req, x.env, Discard);
  }

  /** The report of a tuple whose request ended with err. */
  function Report(k: TupleKey, err: Option<Error>): TupleResult {
    if err.None? then TupleResult(k, WriteSuccess, None) else TupleResult(k, WriteFailure, err)
  }

  /** TupleResult's documented invariant: Err is non-nil exactly when Status is failure. */
  predicate Consistent(r: TupleResult) {
    r.err.Some? <==> r.status == WriteFailure
  }

  /** One result per key, in the order of the keys, each with its status and error in agreement. */
  predicate ReportsOn(keys: seq<TupleKey>, results: seq<TupleResult>) {
    |results| == |keys| && forall j :: 0 <= j < |keys| ==> results[j].key == keys[j] && Consistent(results[j])
  }

  /** The whole call in one line: tuple j carries the error of chunk j / per. */
  ghost function Reports(keys: seq<TupleKey>, per: nat, errs: seq<Option<Error>>): seq<TupleResult>
    requires per > 0 && |errs| == |Spans(0, |keys|, per)|
  {
    seq(|keys|, j requires 0 <= j < |keys| => LastSpan(|keys|, per, j); Report(keys[j], errs[j / per]))
  }

  method AllSucceed(keys: seq<TupleKey>) returns (results: seq<TupleResult>)
    ensures |results| == |keys| && forall j :: 0 <= j < |keys| ==> results[j] == Report(keys[j], None)
  {
    results := [];
    for j := 0 to |keys|
      invariant |results| == j && forall m :: 0 <= m < j ==> results[m] == Report(keys[m], None)
    {
      results := results + [TupleResult(keys[j], WriteSuccess, None)];
    }
  }

  /** Overwriting status and error of results[lo..hi]. */
  method MarkFailed(results: seq<TupleResult>, lo: nat, hi: nat, e: Error) returns (r: seq<TupleResult>)
    requires lo <= hi <= |results|
    ensures |r| == |results|
    ensures forall j :: 0 <= j < |r| ==>
      r[j] == if lo <= j < hi then Report(results[j].key, Some(e)) else results[j]
  {
    r := results;
    for j := lo to hi
      invariant |r| == |results|
      invariant forall m :: 0 <= m < |r| ==>
        r[m] == if lo <= m < j then Report(results[m].key, Some(e)) else results[m]
    {
      r := r[j := r[j].(status := WriteFailure, err := Some(e))];
    }
  }

  /** Attributing each chunk's error to the tuples of its span. */
  method Attribute(keys: seq<TupleKey>, per: nat, spans: seq<Span>, errs: seq<Option<Error>>)
    returns (results: seq<TupleResult>)
    requires per > 0 && spans == Spans(0, |keys|, per) && |errs| == |spans|
    ensures results == Reports(keys, per, errs)
  {
    results := AllSucceed(keys);
    SpansInBounds(|keys|, per);
    for i := 0 to |errs|
      invariant |results| == |keys|
      invariant forall j :: 0 <= j < |keys| ==>
        results[j] == if j / per < i then Report(keys[j], errs[j / per]) else Report(keys[j], None)
    {
      forall j | 0 <= j < |keys|
        ensures spans[i].lo <= j < spans[i].hi <==> i == j / per
      {
        SpanOf(|keys|, per, j, i);
      }
      if errs[i].Some? {
        results := MarkFailed(results, spans[i].lo, spans[i].hi, errs[i].value);
      }
    }
    forall j | 0 <= j < |keys|
      ensures j / per < |errs|
    {
      LastSpan(|keys|, per, j);
    }
  }

  /** Tuples per request in chunked mode. */
  function PerChunk(s: Settings): (per: nat)
    ensures per > 0
  {
    ResolvePositive(s.maxPerChunk, DEFAULT_MAX_PER_CHUNK)
  }

  /** The function handed to runParallel. */
  function SendSpan(s: Settings, store: string, del: bool, keys: seq<TupleKey>, w: World, spans: seq<Span>,
      i: nat): Option<Error> {
    if i < |spans| && spans[i].lo <= spans[i].hi <= |keys| then
      Send(s, store, del, keys[spans[i].lo..spans[i].hi], w, i)
    else
      None
  }

  /** The error of chunk i when chunks below k were started and the context held ctx at k. */
  ghost function ChunkError(s: Settings, store: string, del: bool, keys: seq<TupleKey>, w: World, k: nat,
      ctx: Option<Error>, i: nat): Option<Error>
  {
    if i < k then SendSpan(s, store, del, keys, w, Spans(0, |keys|, PerChunk(s)), i) else ctx
  }

  /** A started chunk sends exactly its own slice of the keys, as request number i. */
  lemma StartedChunk(s: Settings, store: string, del: bool, keys: seq<TupleKey>, w: World, k: nat,
      ctx: Option<Error>, i: nat)
    requires i < k <= |Spans(0, |keys|, PerChunk(s))|
    ensures var per := PerChunk(s);
      && i * per < |keys|
      && ChunkError(s, store, del, keys, w, k, ctx, i) ==
         Send(s, store, del, keys[i * per..Min((i + 1) * per, |keys|)], w, i)
  {
    SpanAt(0, |keys|, PerChunk(s), i);
    assert (i + 1) * PerChunk(s) == i * PerChunk(s) + PerChunk(s);
  }

  /** The per-chunk errors of a call that started k chunks. */
  ghost predicate ChunkErrors(s: Settings, store: string, del: bool, keys: seq<TupleKey>, w: World, k: nat,
      ctx: Option<Error>, errs: seq<Option<Error>>)
  {
    && |errs| == |Spans(0, |keys|, PerChunk(s))| && k <= |errs| && (k < |errs| ==> ctx.Some?)
    && forall i :: 0 <= i < |errs| ==> errs[i] == ChunkError(s, store, del, keys, w, k, ctx, i)
  }

  /** bulkWrite in chunked mode: k chunks were started, in the call of runParallel that fan describes. */
  method BulkChunked(s: Settings, store: string, del: bool, keys: seq<TupleKey>, w: World)
    returns (results: seq<TupleResult>, ghost k: nat, ghost ctx: Option<Error>, ghost errs: seq<Option<Error>>,
        ghost fan: Fanout.Call)
    requires |keys| <= MAX_LEN && IsInt64(s.maxPerChunk)
    ensures ReportsOn(keys, results)
    ensures ChunkErrors(s, store, del, keys, w, k, ctx, errs)
    ensures results == Reports(keys, PerChunk(s), errs)
    ensures Fanout.Made(fan, |errs|, if s.maxParallel >= 1 then s.maxParallel else 10, errs, k, ctx)
  {
    var per := PerChunk(s);
    var spans := Chunk(|keys| as int64, per as int64);
    var fn := (i: nat) => SendSpan(s, store, del, keys, w, spans, i);
    var c := Fanout.Config(|spans|, ResolvePositive(s.maxParallel, DEFAULT_MAX_PARALLEL), fn);
    var es;
    var st;
    ghost var schedule;
    es, k, st, schedule := Fanout.RunParallel(c);
    ctx, errs, fan := st.ctx, es, Fanout.Call(c, schedule);
    results := Attribute(keys, per, spans, es);
  }

  /** The error bulkWrite returns beside the results. */
  function TopLevelError(s: Settings, del: bool, keys: seq<TupleKey>, w: World): Option<Error> {
    if keys == [] then None
    else match StoreFor(s.callStore, s.clientStore)
      case Fail(e) => Some(e)
      case Ok(store) => if s.transaction then Send(s, store, del, keys, w, 0) else None
  }

  /** How a call that could issue no request reports: everything as written, beside the error. */
  predicate AllSuccess(keys: seq<TupleKey>, results: seq<TupleResult>) {
    results == seq(|keys|, j requires 0 <= j < |keys| => TupleResult(keys[j], WriteSuccess, None))
  }

  /** Tuple j of a chunked call was written exactly when its chunk was started and delivered; it shares its
      chunk's error, and that is the context's when the chunk was not started. */
  ghost predicate TupleReport(s: Settings, store: string, del: bool, keys: seq<TupleKey>, w: World, k: nat,
      ctx: Option<Error>, errs: seq<Option<Error>>, results: seq<TupleResult>, j: nat)
    requires j < |keys| == |results|
  {
    var per := PerChunk(s);
    && j / per < |errs| && (j / per) * per < |keys|
    && (results[j].status == WriteSuccess <==>
          j / per < k && Delivered(s, store, del, Slice(keys, per, j / per), w, j / per))
    && results[j].err == errs[j / per]
    && (j / per >= k ==> results[j].err == ctx && ctx.Some?)
  }

  ghost predicate ChunkedReport(s: Settings, store: string, del: bool, keys: seq<TupleKey>, w: World, k: nat,
      ctx: Option<Error>, errs: seq<Option<Error>>, results: seq<TupleResult>)
    requires |results| == |keys|
  {
    && PerChunk(s) == (if s.maxPerChunk >= 1 then s.maxPerChunk else 50)
    && forall j :: 0 <= j < |keys| ==> TupleReport(s, store, del, keys, w, k, ctx, errs, results, j)
  }

  /** The store of a call: its own, else the client's. */
  function EffectiveStore(s: Settings): string {
    if s.callStore != "" then s.callStore else s.clientStore
  }

  /** bulkWrite. */
  method BulkWrite(s: Settings, del: bool, keys: seq<TupleKey>, w: World)
    returns (results: seq<TupleResult>, err: Option<Error>, ghost k: nat, ghost ctx: Option<Error>,
        ghost errs: seq<Option<Error>>, ghost fan: Fanout.Call)
    requires |keys| <= MAX_LEN && IsInt64(s.maxPerChunk)
    ensures ReportsOn(keys, results)
    ensures err == TopLevelError(s, del, keys, w)
    ensures keys == [] ==> results == [] && err.None?
    ensures var store := EffectiveStore(s);
      keys != [] ==>
        if store == "" then err == Some(NO_STORE) && AllSuccess(keys, results)
        else if s.transaction then
          && (err.None? <==> Delivered(s, store, del, keys, w, 0))
          && forall j :: 0 <= j < |keys| ==> results[j].err == err
        else
          && err.None? && ChunkErrors(s, store, del, keys, w, k, ctx, errs) &&
            results == Reports(keys, PerChunk(s), errs)
          && ChunkedReport(s, store, del, keys, w, k, ctx, errs, results)
          && Fanout.Made(fan, |errs|, if s.maxParallel >= 1 then s.maxParallel else 10, errs, k, ctx)
  {
    hide ChunkErrors, TupleReport, ChunkedReport, Delivered, Reports;
    k, ctx, err, errs, fan := 0, None, None, [], Fanout.Call(Fanout.Config(0, 0, _ => None), []);
    results := AllSucceed(keys);
    if keys == [] {
      return;
    }
    var id := StoreFor(s.callStore, s.clientStore);
    if id.Fail? {
      err := Some(id.error);
      return;
    }
    var store := id.value;
    if s.transaction {
      err := Send(s, store, del, keys, w, 0);
      SendMeans(s, store, del, keys, w, 0);
      if err.Some? {
        results := MarkFailed(results, 0, |results|, err.value);
      }
      return;
    }
    results, k, ctx, errs, fan := BulkChunked(s, store, del, keys, w);
    ReportMeans(s, store, del, keys, w, k, ctx, errs);
  }

  lemma ReportMeans(s: Settings, store: string, del: bool, keys: seq<TupleKey>, w: World, k: nat,
      ctx: Option<Error>, errs: seq<Option<Error>>)
    requires ChunkErrors(s, store, del, keys, w, k, ctx, errs)
    ensures ChunkedReport(s, store, del, keys, w, k, ctx, errs, Reports(keys, PerChunk(s), errs))
  {
    hide Delivered, Spans, TupleReport;
    forall j | 0 <= j < |keys|
      ensures TupleReport(s, store, del, keys, w, k, ctx, errs, Reports(keys, PerChunk(s), errs), j)
    {
      OneReport(s, store, del, keys, w, k, ctx, errs, j);
    }
  }

  lemma OneReport(s: Settings, store: string, del: bool, keys: seq<TupleKey>, w: World, k: nat,
      ctx: Option<Error>, errs: seq<Option<Error>>, j: nat)
    requires ChunkErrors(s, store, del, keys, w, k, ctx, errs) && j < |keys|
    ensures TupleReport(s, store, del, keys, w, k, ctx, errs, Reports(keys, PerChunk(s), errs), j)
  {
    hide Delivered, Spans, Reports, PerChunk, Slice;
    TupleMeans(s, store, del, keys, w, k, ctx, errs, j);
    ReportsConsistent(keys, PerChunk(s), errs, j);
    assert errs[j / PerChunk(s)] == ChunkError(s, store, del, keys, w, k, ctx, j / PerChunk(s));
  }

  // ---------------------------------------------------------------- reading the report

  /** The failed results, in order. */
  function FailedOf(rs: seq<TupleResult>): seq<TupleResult> {
    if rs == [] then [] else FailedOf(rs[..|rs| - 1]) + if rs[|rs| - 1].status == WriteFailure then [rs[|rs| - 1]]
      else []
  }

  /** Appending the failed results of one slice. */
  method AppendFailed(ghost before: seq<TupleResult>, failed: seq<TupleResult>, rs: seq<TupleResult>)
    returns (r: seq<TupleResult>)
    requires failed == FailedOf(before)
    ensures r == FailedOf(before + rs)
  {
    r := failed;
    assert before + rs[..0] == before;
    for i := 0 to |rs|
      invariant r == FailedOf(before + rs[..i])
    {
      assert (before + rs[..i + 1])[..|before| + i] == before + rs[..i];
      if rs[i].status == WriteFailure {
        r := r + [rs[i]];
      }
    }
    assert rs[..|rs|] == rs;
  }

  /** Failed over the two result slices. */
  method Failed(writes: seq<TupleResult>, deletes: seq<TupleResult>) returns (failed: seq<TupleResult>)
    ensures failed == FailedOf(writes + deletes)
  {
    failed := AppendFailed([], [], writes);
    assert [] + writes == writes;
    failed := AppendFailed(writes, failed, deletes);
  }

  /** err is the error of the first result that has one, nil if none has. */
  ghost predicate IsFirstError(rs: seq<TupleResult>, err: Option<Error>) {
    && (err.None? <==> forall i :: 0 <= i < |rs| ==> rs[i].err.None?)
    && (err.Some? ==> exists i :: 0 <= i < |rs| && rs[i].err == err && forall m :: 0 <= m < i ==> rs[m].err.None?)
  }

  /** FirstError over the two result slices: the error of the first result that has one. */
  method FirstError(writes: seq<TupleResult>, deletes: seq<TupleResult>) returns (err: Option<Error>)
    ensures IsFirstError(writes + deletes, err)
  {
    ghost var all := writes + deletes;
    for i := 0 to |writes|
      invariant forall m :: 0 <= m < i ==> all[m].err.None?
    {
      if writes[i].err.Some? {
        assert all[i].err == writes[i].err;
        return writes[i].err;
      }
    }
    for i := 0 to |deletes|
      invariant forall m :: 0 <= m < |writes| + i ==> all[m].err.None?
    {
      if deletes[i].err.Some? {
        assert all[|writes| + i].err == deletes[i].err;
        return deletes[i].err;
      }
    }
    err := None;
  }

  /** What FailedOf picks: exactly the failed results, and the earliest of them first. */
  lemma {:induction false} FailedOfMeans(rs: seq<TupleResult>)
    ensures forall r :: r in FailedOf(rs) <==> r in rs && r.status == WriteFailure
    ensures FailedOf(rs) != [] ==>
      exists i :: 0 <= i < |rs| && rs[i] == FailedOf(rs)[0] && forall m :: 0 <= m < i ==> rs[m].status == WriteSuccess
  {
    if rs != [] {
      var n := |rs| - 1;
      FailedOfMeans(rs[..n]);
      assert rs == rs[..n] + [rs[n]];
      if FailedOf(rs[..n]) == [] && rs[n].status == WriteFailure {
        assert forall m :: 0 <= m < n ==> rs[m] in rs[..n];
        assert rs[n] == FailedOf(rs)[0];
      } else if FailedOf(rs[..n]) != [] {
        assert FailedOf(rs)[0] == FailedOf(rs[..n])[0];
      }
    }
  }

  /** failed is the results at exactly the indices that failed, listed in increasing order. */
  ghost predicate FailedAt(rs: seq<TupleResult>, failed: seq<TupleResult>, at: seq<nat>) {
    && |at| == |failed|
    && (forall i :: 0 <= i < |at| ==> at[i] < |rs| && failed[i] == rs[at[i]])
    && (forall i, j :: 0 <= i < j < |at| ==> at[i] < at[j])
    && (forall m: nat :: m < |rs| ==> (m in at <==> rs[m].status == WriteFailure))
  }

  lemma FailedAtMore(front: seq<TupleResult>, r: TupleResult, failed: seq<TupleResult>, at: seq<nat>)
    requires FailedAt(front, failed, at)
    ensures r.status == WriteFailure ==> FailedAt(front + [r], failed + [r], at + [|front|])
    ensures r.status != WriteFailure ==> FailedAt(front + [r], failed, at)
  {
    var rs := front + [r];
    assert forall m :: 0 <= m < |front| ==> rs[m] == front[m];
    assert |front| !in at;
  }

  /** Failed keeps the order, leaves nothing out and lists nothing twice. */
  lemma {:induction false} FailedInOrder(rs: seq<TupleResult>) returns (at: seq<nat>)
    ensures FailedAt(rs, FailedOf(rs), at)
  {
    at := [];
    if rs != [] {
      var n := |rs| - 1;
      at := FailedInOrder(rs[..n]);
      hide FailedAt;
      FailedAtMore(rs[..n], rs[n], FailedOf(rs[..n]), at);
      assert rs[..n] + [rs[n]] == rs;
      assert FailedOf(rs[..n]) + [] == FailedOf(rs[..n]);
      at := if rs[n].status == WriteFailure then at + [n] else at;
    }
  }

  /** On consistent results the two readers agree: FirstError is nil exactly when Failed is empty,
      and otherwise it is the error of Failed's first element. */
  lemma ReadersAgree(rs: seq<TupleResult>, err: Option<Error>)
    requires forall i :: 0 <= i < |rs| ==> Consistent(rs[i])
    requires IsFirstError(rs, err)
    ensures err.None? <==> FailedOf(rs) == []
    ensures FailedOf(rs) != [] ==> err == FailedOf(rs)[0].err
  {
    FailedOfMeans(rs);
    if FailedOf(rs) != [] {
      assert FailedOf(rs)[0] in FailedOf(rs);
      assert FailedOf(rs)[0] in rs;
    }
    if err.Some? {
      var i :| 0 <= i < |rs| && rs[i].err == err && forall m :: 0 <= m < i ==> rs[m].err.None?;
      assert rs[i] in rs && rs[i] in FailedOf(rs);
      var f :| 0 <= f < |rs| && rs[f] == FailedOf(rs)[0] && forall m :: 0 <= m < f ==> rs[m].status == WriteSuccess;
      assert f == i;
    }
  }

  // ---------------------------------------------------------------- end to end

  /** The exchange for a chunk's body, as request number i to the store's write path, ended with a 2xx response
      to its last call. */
  ghost predicate Delivered(s: Settings, store: string, del: bool, chunk: seq<TupleKey>, w: World, i: nat) {
    exists b :: IsBody(b, s, del, chunk) &&
      Answered(s.retry, w.request(i, "/stores/" + store + "/write", w.encode(b)), w.encode(b))
  }

  ghost predicate Answered(retry: RetryConfig, x: Exchange, bytes: string) {
    x.buildError.None? && AnsweredIn(retry, x.env, bytes)
  }

  lemma AnsweredMeans(retry: RetryConfig, x: Exchange, bytes: string)
    ensures Outcome(retry, x, bytes).None? <==> Answered(retry, x, bytes)
  {
    RoundTripResult(retry, Getter(bytes), x.env);
  }

  /** There is exactly one body for a chunk, and it is the one that is built. */
  lemma OneBody(s: Settings, del: bool, chunk: seq<TupleKey>, b: WriteRequest)
    ensures IsBody(b, s, del, chunk) <==> b == BuildBody(s, del, chunk)
  {
  }

  /** A send gives no error exactly when its request was delivered. */
  lemma SendMeans(s: Settings, store: string, del: bool, chunk: seq<TupleKey>, w: World, i: nat)
    ensures Send(s, store, del, chunk, w, i).None? <==> Delivered(s, store, del, chunk, w, i)
  {
    hide Outcome, Answered;
    var b := BuildBody(s, del, chunk);
    OneBody(s, del, chunk, b);
    AnsweredMeans(s.retry, w.request(i, WritePath(store), w.encode(b)), w.encode(b));
    forall c | IsBody(c, s, del, chunk)
      ensures c == b
    {
      OneBody(s, del, chunk, c);
    }
  }

  /** keys[i * per : (i + 1) * per], cut at the end. */
  ghost function Slice(keys: seq<TupleKey>, per: nat, i: nat): seq<TupleKey>
    requires i * per < |keys|
  {
    assert (i + 1) * per == i * per + per;
    keys[i * per..Min((i + 1) * per, |keys|)]
  }

  /** The keys that request bodies carry, one after the other. */
  ghost function Carried(bodies: seq<WriteRequest>): seq<TupleKey> {
    if bodies == [] then []
    else
      var b := bodies[|bodies| - 1];
      Carried(bodies[..|bodies| - 1])
      + (if b.writes.Some? then b.writes.value.tupleKeys else [])
      + (if b.deletes.Some? then b.deletes.value.tupleKeys else [])
  }

  /** The bodies of the first chunks. */
  ghost predicate AreBodies(s: Settings, del: bool, keys: seq<TupleKey>, bodies: seq<WriteRequest>) {
    forall i :: 0 <= i < |bodies| ==>
      i * PerChunk(s) < |keys| && IsBody(bodies[i], s, del, Slice(keys, PerChunk(s), i))
  }

  lemma {:induction false} CarriedPrefix(s: Settings, del: bool, keys: seq<TupleKey>, k: nat)
    returns (bodies: seq<WriteRequest>)
    requires k <= |Spans(0, |keys|, PerChunk(s))|
    ensures |bodies| == k && AreBodies(s, del, keys, bodies)
    ensures Carried(bodies) == keys[..Min(k * PerChunk(s), |keys|)]
    decreases k
  {
    hide Spans, PerChunk, IsBody;
    var per := PerChunk(s);
    bodies := [];
    if k > 0 {
      var before := CarriedPrefix(s, del, keys, k - 1);
      SpanAt(0, |keys|, per, k - 1);
      var chunk := Slice(keys, per, k - 1);
      var b := BuildBody(s, del, chunk);
      OneBody(s, del, chunk, b);
      bodies := before + [b];
      CarriedMore(s, del, chunk, before, b);
      assert k * per == (k - 1) * per + per;
      Glue(keys, (k - 1) * per, Min(k * per, |keys|));
    }
  }

  lemma CarriedMore(s: Settings, del: bool, chunk: seq<TupleKey>, before: seq<WriteRequest>, b: WriteRequest)
    requires IsBody(b, s, del, chunk)
    ensures Carried(before + [b]) == Carried(before) + chunk
  {
    assert (before + [b])[..|before|] == before;
  }

  /** The bodies of k started chunks, the ones their deliveries are about, carry a prefix of the keys, and all of
      them carry all keys: no key is in two requests, and none is left out or out of order. A transaction's one
      body carries them all (Delivered). */
  lemma KeysCarriedOnce(s: Settings, del: bool, keys: seq<TupleKey>, k: nat) returns (bodies: seq<WriteRequest>)
    requires k <= |Spans(0, |keys|, PerChunk(s))|
    ensures PerChunk(s) == if s.maxPerChunk >= 1 then s.maxPerChunk else 50
    ensures |bodies| == k && AreBodies(s, del, keys, bodies)
    ensures Carried(bodies) == keys[..Min(k * PerChunk(s), |keys|)]
    ensures k == |Spans(0, |keys|, PerChunk(s))| ==> Carried(bodies) == keys
  {
    hide Spans, Carried, IsBody;
    bodies := CarriedPrefix(s, del, keys, k);
    SpanCount(0, |keys|, PerChunk(s));
  }

  lemma ChunkMeans(s: Settings, store: string, del: bool, keys: seq<TupleKey>, w: World, k: nat, ctx: Option<Error>,
      errs: seq<Option<Error>>, i: nat)
    requires ChunkErrors(s, store, del, keys, w, k, ctx, errs) && i < |errs|
    ensures i * PerChunk(s) < |keys|
    ensures errs[i].None? <==> i < k && Delivered(s, store, del, Slice(keys, PerChunk(s), i), w, i)
  {
    SpanAt(0, |keys|, PerChunk(s), i);
    assert errs[i] == ChunkError(s, store, del, keys, w, k, ctx, i);
    if i < k {
      StartedChunk(s, store, del, keys, w, k, ctx, i);
      SendMeans(s, store, del, Slice(keys, PerChunk(s), i), w, i);
    }
  }

  /** Tuple j of a chunked call: it keeps its key, its status and error agree, it succeeded exactly
      when its chunk was started and delivered, and it shares its error with its whole chunk. */
  lemma TupleMeans(s: Settings, store: string, del: bool, keys: seq<TupleKey>, w: World, k: nat, ctx: Option<Error>,
      errs: seq<Option<Error>>, j: nat)
    requires ChunkErrors(s, store, del, keys, w, k, ctx, errs) && j < |keys|
    ensures var per, r := PerChunk(s), Reports(keys, PerChunk(s), errs);
      && r[j].key == keys[j] && Consistent(r[j])
      && j / per < |errs| && (j / per) * per < |keys|
      && (r[j].status == WriteSuccess <==> j / per < k && Delivered(s, store, del, Slice(keys, per, j / per), w,
        j / per))
      && (r[j].status == WriteFailure ==> r[j].err == errs[j / per])
  {
    LastSpan(|keys|, PerChunk(s), j);
    ChunkMeans(s, store, del, keys, w, k, ctx, errs, j / PerChunk(s));
  }

  lemma ReportsConsistent(keys: seq<TupleKey>, per: nat, errs: seq<Option<Error>>, j: nat)
    requires per > 0 && |errs| == |Spans(0, |keys|, per)| && j < |keys|
    ensures j / per < |errs| && Reports(keys, per, errs)[j].err == errs[j / per] &&
      Consistent(Reports(keys, per, errs)[j])
  {
    LastSpan(|keys|, per, j);
  }

  /** One check detects every partial failure: FirstError is nil exactly when no chunk has an error
      (ChunkMeans: every chunk was started and delivered), and then Failed is empty; otherwise
      FirstError is the error of Failed's first element. */
  lemma FirstErrorMeans(keys: seq<TupleKey>, per: nat, errs: seq<Option<Error>>, err: Option<Error>)
    requires per > 0 && |errs| == |Spans(0, |keys|, per)|
    requires IsFirstError(Reports(keys, per, errs), err)
    ensures var failed := FailedOf(Reports(keys, per, errs));
      && (err.None? <==> failed == [])
      && (failed != [] ==> err == failed[0].err)
    ensures err.None? <==> forall i :: 0 <= i < |errs| ==> errs[i].None?
  {
    var r := Reports(keys, per, errs);
    forall j | 0 <= j < |r|
      ensures Consistent(r[j])
    {
      ReportsConsistent(keys, per, errs, j);
    }
    ReadersAgree(r, err);
    NoErrorAnywhere(keys, per, errs);
  }

  lemma ChunkHasReport(keys: seq<TupleKey>, per: nat, errs: seq<Option<Error>>, i: nat) returns (j: nat)
    requires per > 0 && |errs| == |Spans(0, |keys|, per)| && i < |errs|
    ensures j < |keys| && Reports(keys, per, errs)[j].err == errs[i]
  {
    SpanAt(0, |keys|, per, i);
    j := i * per;
    Quotient(j, per, i);
    ReportsConsistent(keys, per, errs, j);
  }

  lemma SameErrors(r: seq<TupleResult>, errs: seq<Option<Error>>)
    requires forall j :: 0 <= j < |r| ==> r[j].err in errs
    requires forall i :: 0 <= i < |errs| ==> exists j :: 0 <= j < |r| && r[j].err == errs[i]
    ensures (forall j :: 0 <= j < |r| ==> r[j].err.None?) <==> (forall i :: 0 <= i < |errs| ==> errs[i].None?)
  {
  }

  lemma NoErrorAnywhere(keys: seq<TupleKey>, per: nat, errs: seq<Option<Error>>)
    requires per > 0 && |errs| == |Spans(0, |keys|, per)|
    ensures var r := Reports(keys, per, errs);
      (forall j :: 0 <= j < |r| ==> r[j].err.None?) <==> (forall i :: 0 <= i < |errs| ==> errs[i].None?)
  {
    hide Spans;
    var r := Reports(keys, per, errs);
    forall j | 0 <= j < |r|
      ensures r[j].err in errs
    {
      ReportsConsistent(keys, per, errs, j);
    }
    forall i | 0 <= i < |errs|
      ensures exists j :: 0 <= j < |r| && r[j].err == errs[i]
    {
      var j := ChunkHasReport(keys, per, errs, i);
    }
    SameErrors(r, errs);
  }

  /** bulkWrite sends one request for all keys. */
  predicate SendsOne(s: Settings, keys: seq<TupleKey>) {
    s.transaction && keys != [] && StoreFor(s.callStore, s.clientStore).Ok?
  }

  /** That request reached the base transport. */
  ghost predicate Issued(s: Settings, del: bool, keys: seq<TupleKey>, w: World) {
    SendsOne(s, keys) && exists b :: IsBody(b, s, del, keys) && Called(s, w, w.encode(b))
  }

  ghost predicate Called(s: Settings, w: World, bytes: string) {
    var x := w.request(0, "/stores/" + EffectiveStore(s) + "/write", bytes);
    x.buildError.None? && Retry.RoundTrip(s.retry, Getter(bytes), x.env).calls > 0
  }

  /** Every attempt of the transaction is answered 400. */
  const REFUSAL := Exchange(None, Env(_ => Replied(400, "", "", None), _ => None, _ => None,
                                      Machine(_ => None, 0, _ => 0)))

  lemma RefusedTransaction(s: Settings, del: bool, keys: seq<TupleKey>, w: World)
    requires SendsOne(s, keys) && forall i, path, body :: w.request(i, path, body) == REFUSAL
    ensures Issued(s, del, keys, w) && TopLevelError(s, del, keys, w).Some?
  {
    var b := BuildBody(s, del, keys);
    var bytes := w.encode(b);
    OneBody(s, del, keys, b);
    UndisturbedRoundTrip(s.retry, Getter(bytes), REFUSAL.env);
    var t := Retry.RoundTrip(s.retry, Getter(bytes), REFUSAL.env);
    assert REFUSAL.env.reply(t.calls - 1) == Replied(400, "", "", None);
    assert Called(s, w, bytes);
  }

  /** The documentation says the top-level error is non-nil only when no request could be issued. That
      holds of every run exactly when the call is not a transaction that sends its request: such a one
      also returns the error of a request that was issued and answered. In chunked mode there is no
      top-level error at all once a store is known. */
  lemma TopLevelErrorMeans(s: Settings, del: bool, keys: seq<TupleKey>, encode: WriteRequest -> string)
    ensures !SendsOne(s, keys) <==>
      forall w: World :: w.encode == encode && TopLevelError(s, del, keys, w).Some? ==> !Issued(s, del, keys, w)
    ensures !s.transaction && StoreFor(s.callStore, s.clientStore).Ok? ==>
      forall w: World :: TopLevelError(s, del, keys, w).None?
  {
    if SendsOne(s, keys) {
      var w := World((i: nat, path: string, body: string) => REFUSAL, encode);
      RefusedTransaction(s, del, keys, w);
      assert w.encode == encode && TopLevelError(s, del, keys, w).Some?;
    }
  }
}
