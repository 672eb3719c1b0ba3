/** Relationships.BatchCheckAll and ListRelations: correlation IDs, chunked fan-out, merging, and
    the refinement of one unchunked batch check. */
module BatchCheck {
  import opened Basics
  import opened Decimal
  import opened Backoff
  import opened Retry
  import opened CallPath
  import opened Chunking
  import opened Client
  import Fanout

  /** What is asked, without its correlation ID: a tuple key, contextual tuples and context. */
  datatype Check = Check(user: string, relation: string, obj: string, contextualTuples: string, context: string)

  datatype Item = Item(check: Check, id: string)

  datatype Single = Single(allowed: bool, error: string)

  type Results = map<string, Single>

  // ---------------------------------------------------------------- correlation IDs

  /** The ID item i ends up with, when gen(i) is what the generator returns for it. */
  function IdOf(items: seq<Item>, gen: nat -> Result<string>, i: nat): string
    requires i < |items|
  {
    if items[i].id != "" then items[i].id
    else match gen(i)
      case Ok(id) => id
      case Fail(_) => ""
  }

  /** Preparation stops at item i: its ID cannot be generated, or repeats an earlier one. */
  predicate Rejects(items: seq<Item>, gen: nat -> Result<string>, i: nat)
    requires i < |items|
  {
    if items[i].id == "" then gen(i).Fail?
    else exists m :: 0 <= m < i && IdOf(items, gen, m) == items[i].id
  }

  function Prepared(items: seq<Item>, gen: nat -> Result<string>): seq<Item> {
    seq(|items|, i requires 0 <= i < |items| => items[i].(id := IdOf(items, gen, i)))
  }

  /** Preparing keeps every check at its place; an item's own ID stays, an empty one becomes the generated one. */
  lemma PreparedMeans(items: seq<Item>, gen: nat -> Result<string>, i: nat)
    requires i < |items| && !Rejects(items, gen, i)
    ensures var p := Prepared(items, gen);
      && |p| == |items| && p[i].check == items[i].check
      && (if items[i].id != "" then p[i].id == items[i].id else gen(i) == Ok(p[i].id))
  {
  }

  function Duplicate(id: string): Error {
    Error(Other("openfga: duplicate correlation_id " + id), [])
  }

  /** e is the error of the first item that is rejected. */
  ghost predicate FirstRejection(items: seq<Item>, gen: nat -> Result<string>, e: Error) {
    exists i :: 0 <= i < |items| && Rejects(items, gen, i) && RejectionIs(items, gen, i, e)
  }

  ghost predicate RejectionIs(items: seq<Item>, gen: nat -> Result<string>, i: nat, e: Error)
    requires i < |items|
  {
    && (forall m :: 0 <= m < i ==> !Rejects(items, gen, m))
    && (if items[i].id == "" then gen(i) == Fail(e) else e == Duplicate(items[i].id))
  }

  /** prepareBatchCheckItems. */
  method Prepare(items: seq<Item>, gen: nat -> Result<string>) returns (r: Result<seq<Item>>)
    ensures r.Ok? <==> forall i :: 0 <= i < |items| ==> !Rejects(items, gen, i)
    ensures r.Ok? ==> r.value == Prepared(items, gen)
    ensures r.Fail? ==> FirstRejection(items, gen, r.error)
  {
    var out: seq<Item> := [];
    var seen: set<string> := {};
    for i := 0 to |items|
      invariant out == Prepared(items, gen)[..i]
      invariant seen == set m | 0 <= m < i :: IdOf(items, gen, m)
      invariant forall m :: 0 <= m < i ==> !Rejects(items, gen, m)
    {
      var item := items[i];
      if item.id == "" {
        var id := gen(i);
        if id.Fail? {
          assert Rejects(items, gen, i) && RejectionIs(items, gen, i, id.error);
          return Fail(id.error);
        }
        item := item.(id := id.value);
      } else if item.id in seen {
        assert Rejects(items, gen, i) && RejectionIs(items, gen, i, Duplicate(item.id));
        return Fail(Duplicate(item.id));
      }
      assert item.id == IdOf(items, gen, i);
      seen := seen + {item.id};
      out := out + [item];
    }
    r := Ok(out);
  }

  ghost predicate Distinct(items: seq<Item>) {
    forall i, j :: 0 <= i < j < |items| ==> items[i].id != items[j].id
  }

  /** The generator works and never returns an empty ID, one it returned before, or one a caller
      supplied. */
  ghost predicate Fresh(items: seq<Item>, gen: nat -> Result<string>) {
    forall i :: 0 <= i < |items| && items[i].id == "" ==>
      && gen(i).Ok? && gen(i).value != ""
      && forall j :: 0 <= j < |items| && j != i ==> IdOf(items, gen, j) != gen(i).value
  }

  /** With a fresh generator, preparation is refused exactly when caller-supplied IDs repeat, and
      otherwise all IDs are non-empty and pairwise distinct. */
  lemma PrepareMeans(items: seq<Item>, gen: nat -> Result<string>)
    requires Fresh(items, gen)
    ensures (forall i :: 0 <= i < |items| ==> !Rejects(items, gen, i)) <==>
      forall i, j :: 0 <= i < j < |items| && items[i].id != "" ==> items[i].id != items[j].id
    ensures (forall i :: 0 <= i < |items| ==> !Rejects(items, gen, i)) ==>
      Distinct(Prepared(items, gen)) && forall i :: 0 <= i < |items| ==> Prepared(items, gen)[i].id != ""
  {
    if i, j :| 0 <= i < j < |items| && items[i].id != "" && items[i].id == items[j].id {
      assert IdOf(items, gen, i) == items[j].id;
      assert Rejects(items, gen, j);
    }
    if j :| 0 <= j < |items| && Rejects(items, gen, j) {
      var i :| 0 <= i < j && IdOf(items, gen, i) == items[j].id;
      assert IdOf(items, gen, j) == items[j].id;
      assert items[i].id != "";
    }
  }

  /** Without that assumption: IDs of an accepted list are pairwise distinct exactly when no generated
      ID repeats an earlier one, the one case preparation does not check. */
  lemma DistinctMeans(items: seq<Item>, gen: nat -> Result<string>)
    requires forall i :: 0 <= i < |items| ==> !Rejects(items, gen, i)
    ensures Distinct(Prepared(items, gen)) <==>
      forall i, m :: 0 <= m < i < |items| && items[i].id == "" ==> IdOf(items, gen, m) != IdOf(items, gen, i)
  {
    var p := Prepared(items, gen);
    if Distinct(p) {
      forall i, m | 0 <= m < i < |items| && items[i].id == ""
        ensures IdOf(items, gen, m) != IdOf(items, gen, i)
      {
        assert p[m].id != p[i].id;
        assert !Rejects(items, gen, i);
      }
    } else {
      var m, i :| 0 <= m < i < |items| && p[m].id == p[i].id;
      assert !Rejects(items, gen, i);
    }
  }

  // ---------------------------------------------------------------- one request

  datatype BatchRequest = BatchRequest(checks: seq<Item>, modelID: string, consistency: string)

  /** What happens to one request: newRequest may fail, the transport runs in env, and a 2xx body decodes to
      decoded with error decodeError (a failed decode may leave part of it). */
  datatype Exchange = Exchange(buildError: Option<Error>, env: Env, decodeError: Option<Error>, decoded: Results)

  /** What happens to request number i to a path with a body, which may depend on all three; encode is how a
      body goes on the wire. */
  datatype World = World(request: (nat, string, string) -> Exchange, encode: BatchRequest -> string)

  /** The effective settings of one call: the request's own fields, the call's options and the client's
      defaults. */
  datatype Settings = Settings(
    callStore: string, clientStore: string,
    reqModel: string, callModel: string, clientModel: string,
    reqConsistency: string, callConsistency: string, clientConsistency: string,
    maxChecksPerBatch: int, maxParallel: int,
    retry: RetryConfig
  )

  const DEFAULT_MAX_CHECKS := 50

  function PerBatch(s: Settings): (per: nat)
    ensures per > 0
  {
    ResolvePositive(s.maxChecksPerBatch, DEFAULT_MAX_CHECKS)
  }

  /** fillDefaults: a value the request leaves empty is the call's, else the client's. */
  function Fill(own: string, call: string, client: string): string {
    if own == "" then ModelFor(call, client) else own
  }

  function BodyFor(s: Settings, chunk: seq<Item>): BatchRequest {
    BatchRequest(chunk, Fill(s.reqModel, s.callModel, s.clientModel),
      Fill(s.reqConsistency, s.callConsistency, s.clientConsistency))
  }

  function BatchPath(store: string): string {
    "/stores/" + store + "/batch-check"
  }

  /** The exchange of a chunk sent as request i. */
  function ExchangeFor(s: Settings, store: string, w: World, chunk: seq<Item>, i: nat): Exchange {
    w.request(i, BatchPath(store), w.encode(BodyFor(s, chunk)))
  }

  function EndFor(s: Settings, store: string, w: World, chunk: seq<Item>, i: nat): End {
    RoundTrip(s.retry, Getter(w.encode(BodyFor(s, chunk))), ExchangeFor(s, store, w, chunk, i).env).end
  }

  /** The error of the function handed to runParallel, for a chunk sent as request i. */
  function Failure(s: Settings, store: string, w: World, chunk: seq<Item>, i: nat): Option<Error> {
    var x := ExchangeFor(s, store, w, chunk, i);
    if x.buildError.Some? then x.buildError
    else ErrorOf(x.env, EndFor(s, store, w, chunk, i), Json(x.decodeError, None))
  }

  /** What that function leaves in chunkResults[i]: nothing unless a 2xx body was decoded. */
  function Decoded(s: Settings, store: string, w: World, chunk: seq<Item>, i: nat): Results {
    var x := ExchangeFor(s, store, w, chunk, i);
    if x.buildError.None? && ErrorOf(x.env, EndFor(s, store, w, chunk, i), Discard).None? then x.decoded else map[]
  }

  /** b is the request body for a chunk: exactly its items, under the request's own model and consistency, or
      the call's, or the client's. */
  predicate IsBody(b: BatchRequest, s: Settings, chunk: seq<Item>) {
    && b.checks == chunk
    && b.modelID == (if s.reqModel != "" then s.reqModel else if s.callModel != "" then s.callModel else s.clientModel)
    && b.consistency == (if s.reqConsistency != "" then s.reqConsistency
                         else if s.callConsistency != "" then s.callConsistency else s.clientConsistency)
  }

  /** The exchange was answered 2xx by its last call. */
  ghost predicate Answered(retry: RetryConfig, x: Exchange, bytes: string) {
    x.buildError.None? && AnsweredIn(retry, x.env, bytes)
  }

  /** What an exchange leaves behind: the decoded results of a 2xx answer, whole or as far as the decoder got,
      and nothing otherwise; and an error unless the answer was 2xx and decoded. */
  ghost predicate Leaves(retry: RetryConfig, x: Exchange, bytes: string, slot: Results, err: Option<Error>) {
    && slot == (if Answered(retry, x, bytes) then x.decoded else map[])
    && (if Answered(retry, x, bytes) then err == x.decodeError else err.Some?)
  }

  /** What a started chunk leaves in its slots. */
  ghost predicate ChunkLeaves(s: Settings, store: string, w: World, chunk: seq<Item>, i: nat,
                              slot: Results, err: Option<Error>) {
    exists b :: IsBody(b, s, chunk) &&
      Leaves(s.retry, w.request(i, "/stores/" + store + "/batch-check", w.encode(b)), w.encode(b), slot, err)
  }

  lemma SlotMeans(s: Settings, store: string, w: World, chunk: seq<Item>, i: nat)
    ensures IsBody(BodyFor(s, chunk), s, chunk)
    ensures Leaves(s.retry, ExchangeFor(s, store, w, chunk, i), w.encode(BodyFor(s, chunk)),
                   Decoded(s, store, w, chunk, i), Failure(s, store, w, chunk, i))
    ensures ChunkLeaves(s, store, w, chunk, i, Decoded(s, store, w, chunk, i), Failure(s, store, w, chunk, i))
  {
    var b := BodyFor(s, chunk);
    var x := w.request(i, "/stores/" + store + "/batch-check", w.encode(b));
    RoundTripResult(s.retry, Getter(w.encode(b)), x.env);
    assert Leaves(s.retry, x, w.encode(b), Decoded(s, store, w, chunk, i), Failure(s, store, w, chunk, i));
  }

  /** checks[spans[i].lo:spans[i].hi]. */
  function ChunkOf(items: seq<Item>, spans: seq<Span>, i: nat): seq<Item> {
    if i < |spans| && spans[i].lo <= spans[i].hi <= |items| then items[spans[i].lo..spans[i].hi] else []
  }

  // ---------------------------------------------------------------- merging

  /** Ranging over one chunk's result map, in whatever order, and assigning into the merged one. */
  method MergeInto(merged: Results, chunk: Results) returns (r: Results)
    ensures r == merged + chunk
  {
    r := merged;
    var todo := chunk.Keys;
    while todo != {}
      invariant todo <= chunk.Keys
      invariant r == merged + map k | k in chunk && k !in todo :: chunk[k]
      decreases |todo|
    {
      var k :| k in todo;
      todo := todo - {k};
      r := r[k := chunk[k]];
    }
    assert (map k | k in chunk && k !in todo :: chunk[k]) == chunk;
  }

  function MergeAll(slots: seq<Results>): Results {
    if slots == [] then map[] else MergeAll(slots[..|slots| - 1]) + slots[|slots| - 1]
  }

  method Merge(slots: seq<Results>) returns (r: Results)
    ensures r == MergeAll(slots)
  {
    r := map[];
    for i := 0 to |slots|
      invariant r == MergeAll(slots[..i])
    {
      assert slots[..i + 1][..i] == slots[..i];
      r := MergeInto(r, slots[i]);
    }
    assert slots[..|slots|] == slots;
  }

  /** The non-nil errors, in order. */
  function NonNil(errs: seq<Option<Error>>): seq<Error> {
    if errs == [] then [] else (if errs[0].Some? then [errs[0].value] else []) + NonNil(errs[1..])
  }

  /** errors.Join: nil when every error is nil. */
  function Join(errs: seq<Option<Error>>): Option<Error> {
    if NonNil(errs) == [] then None else Some(Error(Other("joined"), NonNil(errs)))
  }

  lemma {:induction false} JoinMeans(errs: seq<Option<Error>>)
    ensures Join(errs).None? <==> forall i :: 0 <= i < |errs| ==> errs[i].None?
    ensures Join(errs).Some? ==> forall i :: 0 <= i < |errs| && errs[i].Some? ==>
      errs[i].value in Join(errs).value.wraps
  {
    if errs != [] {
      JoinMeans(errs[1..]);
      assert forall i :: 0 < i < |errs| ==> errs[i] == errs[1..][i - 1];
    }
  }

  /** The slots after a fan-out that started the first k chunks: a chunk that was not started leaves
      its slot empty, and holds the context's error. */
  ghost predicate FannedOut(s: Settings, store: string, w: World, items: seq<Item>, spans: seq<Span>, k: nat,
                            slots: seq<Results>, errs: seq<Option<Error>>) {
    && |slots| == |errs| == |spans| && k <= |spans|
    && (forall i :: 0 <= i < k ==> slots[i] == Decoded(s, store, w, ChunkOf(items, spans, i), i))
    && (forall i :: 0 <= i < k ==> errs[i] == Failure(s, store, w, ChunkOf(items, spans, i), i))
    && (forall i :: k <= i < |spans| ==> slots[i] == map[] && errs[i].Some?)
  }

  /** The started chunks left what their exchanges leave. */
  ghost predicate SlotsMean(s: Settings, store: string, w: World, items: seq<Item>, spans: seq<Span>, k: nat,
                            slots: seq<Results>, errs: seq<Option<Error>>) {
    && |slots| == |errs| == |spans| && k <= |spans|
    && forall i :: 0 <= i < k ==> ChunkLeaves(s, store, w, ChunkOf(items, spans, i), i, slots[i], errs[i])
  }

  lemma AllSlotsMean(s: Settings, store: string, w: World, items: seq<Item>, spans: seq<Span>, k: nat,
                     slots: seq<Results>, errs: seq<Option<Error>>)
    requires FannedOut(s, store, w, items, spans, k, slots, errs)
    ensures SlotsMean(s, store, w, items, spans, k, slots, errs)
  {
    forall i | 0 <= i < k
      ensures ChunkLeaves(s, store, w, ChunkOf(items, spans, i), i, slots[i], errs[i])
    {
      SlotMeans(s, store, w, ChunkOf(items, spans, i), i);
    }
  }

  method FanOut(s: Settings, store: string, w: World, items: seq<Item>, spans: seq<Span>)
    returns (slots: seq<Results>, errs: seq<Option<Error>>, ghost k: nat, ghost ctx: Option<Error>,
        ghost fan: Fanout.Call)
    ensures |slots| == |errs| == |spans|
    ensures FannedOut(s, store, w, items, spans, k, slots, errs)
    ensures SlotsMean(s, store, w, items, spans, k, slots, errs)
    ensures Fanout.Made(fan, |spans|, if s.maxParallel >= 1 then s.maxParallel else 10, errs, k, ctx)
  {
    var fn := (i: nat) => Failure(s, store, w, ChunkOf(items, spans, i), i);
    var c := Fanout.Config(|spans|, ResolvePositive(s.maxParallel, DEFAULT_MAX_PARALLEL), fn);
    var st;
    ghost var schedule;
    errs, k, st, schedule := Fanout.RunParallel(c);
    ctx, fan := st.ctx, Fanout.Call(c, schedule);
    slots := seq(|spans|, i requires 0 <= i < |spans| && |st.runs| == |spans| =>
      if st.runs[i] > 0 then Decoded(s, store, w, ChunkOf(items, spans, i), i) else map[]);
    AllSlotsMean(s, store, w, items, spans, k, slots, errs);
  }

  // ---------------------------------------------------------------- refinement of one batch check

  /** The result map of one unchunked batch check, when answer is what the server decides. */
  ghost function AnswersTo(items: seq<Item>, answer: Check -> Single): Results {
    if items == [] then map[]
    else AnswersTo(items[..|items| - 1], answer)[items[|items| - 1].id := answer(items[|items| - 1].check)]
  }

  /** With distinct IDs the map has exactly the items' IDs, each with its own item's answer. */
  lemma {:induction false} AnswersAt(items: seq<Item>, answer: Check -> Single)
    requires Distinct(items)
    ensures AnswersTo(items, answer).Keys == set i | 0 <= i < |items| :: items[i].id
    ensures forall i :: 0 <= i < |items| ==>
      items[i].id in AnswersTo(items, answer) && AnswersTo(items, answer)[items[i].id] == answer(items[i].check)
  {
    if items != [] {
      var before := items[..|items| - 1];
      AnswersAt(before, answer);
      assert forall i :: 0 <= i < |before| ==> before[i] == items[i];
      forall i | 0 <= i < |items|
        ensures items[i].id in AnswersTo(items, answer) && AnswersTo(items,
          answer)[items[i].id] == answer(items[i].check)
      {
        assert i < |before| ==> items[i].id == before[i].id && items[i].id != items[|before|].id;
      }
    }
  }

  lemma {:induction false} AnswersAppend(a: seq<Item>, b: seq<Item>, answer: Check -> Single)
    ensures AnswersTo(a + b, answer) == AnswersTo(a, answer) + AnswersTo(b, answer)
  {
    if b == [] {
      assert a + b == a;
    } else {
      var n := |b| - 1;
      AnswersAppend(a, b[..n], answer);
      assert (a + b)[..|a| + n] == a + b[..n];
    }
  }

  /** The server answers checks as answer says: whatever request for the call's store, under its model and
      consistency, is answered 2xx with a body that decodes, it decodes to the results of a batch check of the
      items that request carries. */
  ghost predicate Honest(s: Settings, store: string, w: World, answer: Check -> Single) {
    forall i: nat, b: BatchRequest {:trigger w.request(i, "/stores/" + store + "/batch-check", w.encode(b))} ::
      IsBody(b, s, b.checks) ==> HonestIn(s.retry, w.request(i, "/stores/" + store + "/batch-check", w.encode(b)),
        w.encode(b), b.checks, answer)
  }

  ghost predicate HonestIn(retry: RetryConfig, x: Exchange, bytes: string, items: seq<Item>, answer: Check -> Single) {
    Answered(retry, x, bytes) && x.decodeError.None? ==> x.decoded == AnswersTo(items, answer)
  }

  /** Every chunk that succeeds is answered like a batch check of its items. */
  lemma HonestChunk(s: Settings, store: string, w: World, answer: Check -> Single, chunk: seq<Item>, i: nat)
    requires Honest(s, store, w, answer) && Failure(s, store, w, chunk, i).None?
    ensures Decoded(s, store, w, chunk, i) == AnswersTo(chunk, answer)
  {
    SlotMeans(s, store, w, chunk, i);
    var b := BodyFor(s, chunk);
    assert HonestIn(s.retry, w.request(i, "/stores/" + store + "/batch-check", w.encode(b)), w.encode(b), b.checks,
      answer);
  }

  /** The items of the chunks among the first n that have no error, in order. */
  ghost function Succeeded(items: seq<Item>, spans: seq<Span>, errs: seq<Option<Error>>, n: nat): seq<Item>
    requires n <= |errs|
  {
    if n == 0 then []
    else Succeeded(items, spans, errs, n - 1) + if errs[n - 1].None? then ChunkOf(items, spans, n - 1) else []
  }

  lemma {:induction false} MergedAnswers(items: seq<Item>, spans: seq<Span>, answer: Check -> Single,
                                         slots: seq<Results>, errs: seq<Option<Error>>, n: nat)
    requires n <= |slots| == |errs|
    requires forall i :: 0 <= i < |errs| ==>
      slots[i] == if errs[i].None? then AnswersTo(ChunkOf(items, spans, i), answer) else map[]
    ensures MergeAll(slots[..n]) == AnswersTo(Succeeded(items, spans, errs, n), answer)
  {
    if n > 0 {
      MergedAnswers(items, spans, answer, slots, errs, n - 1);
      assert slots[..n][..n - 1] == slots[..n - 1] && slots[..n][n - 1] == slots[n - 1];
      assert MergeAll(slots[..n]) == MergeAll(slots[..n - 1]) + slots[n - 1];
      var before := Succeeded(items, spans, errs, n - 1);
      if errs[n - 1].None? {
        AnswersAppend(before, ChunkOf(items, spans, n - 1), answer);
      } else {
        assert before + [] == before;
      }
    }
  }

  /** The merged map is the single-request map over the items of the succeeded chunks, provided a
      failed chunk left nothing behind (ChunkFailures: it can only if its decode failed midway). */
  lemma PartialResults(s: Settings, store: string, w: World, items: seq<Item>, spans: seq<Span>,
      answer: Check -> Single,
                       k: nat, slots: seq<Results>, errs: seq<Option<Error>>)
    requires FannedOut(s, store, w, items, spans, k, slots, errs) && Honest(s, store, w, answer)
    requires forall i :: 0 <= i < |errs| && errs[i].Some? ==> slots[i] == map[]
    ensures MergeAll(slots) == AnswersTo(Succeeded(items, spans, errs, |errs|), answer)
  {
    forall i | 0 <= i < |errs| && errs[i].None?
      ensures slots[i] == AnswersTo(ChunkOf(items, spans, i), answer)
    {
      assert i < k;
      HonestChunk(s, store, w, answer, ChunkOf(items, spans, i), i);
    }
    MergedAnswers(items, spans, answer, slots, errs, |slots|);
    assert slots[..|slots|] == slots;
  }

  lemma {:induction false} SucceededAll(items: seq<Item>, per: nat, errs: seq<Option<Error>>, n: nat)
    requires per > 0 && n <= |errs| == |Spans(0, |items|, per)|
    requires forall i :: 0 <= i < |errs| ==> errs[i].None?
    ensures var spans := Spans(0, |items|, per);
      && (forall i :: 0 <= i < |spans| ==> spans[i].lo <= spans[i].hi <= |items|)
      && Succeeded(items, spans, errs, n) == Bodies(items, spans, n)
  {
    SpansInBounds(|items|, per);
    if n > 0 {
      SucceededAll(items, per, errs, n - 1);
    }
  }

  /** BatchCheckAll refines one unchunked batch check: for every chunk size, worker limit and schedule,
      a nil error means the merged map is the single-request map over all prepared items. */
  lemma BatchRefinesSingle(s: Settings, store: string, w: World, items: seq<Item>, answer: Check -> Single,
                           k: nat, slots: seq<Results>, errs: seq<Option<Error>>)
    requires var spans := Spans(0, |items|, PerBatch(s));
      FannedOut(s, store, w, items, spans, k, slots, errs) && Honest(s, store, w, answer)
    requires Join(errs).None?
    ensures MergeAll(slots) == AnswersTo(items, answer)
  {
    var spans := Spans(0, |items|, PerBatch(s));
    JoinMeans(errs);
    PartialResults(s, store, w, items, spans, answer, k, slots, errs);
    SucceededAll(items, PerBatch(s), errs, |errs|);
    BodiesArePrefix(items, PerBatch(s), |errs|);
  }

  /** The error is nil exactly when every chunk was started and succeeded; a failed chunk leaves its
      slot empty unless its 2xx body failed to decode. */
  lemma ChunkFailures(s: Settings, store: string, w: World, items: seq<Item>, spans: seq<Span>, k: nat,
      slots: seq<Results>,
      errs: seq<Option<Error>>)
    requires FannedOut(s, store, w, items, spans, k, slots, errs)
    ensures Join(errs).None? <==> k == |spans| && forall i :: 0 <= i < |spans| ==>
      Failure(s, store, w, ChunkOf(items, spans, i), i).None?
    ensures forall i :: 0 <= i < |spans| && errs[i].Some? && slots[i] != map[] ==>
      ExchangeFor(s, store, w, ChunkOf(items, spans, i), i).decodeError.Some?
  {
    JoinMeans(errs);
    if k < |spans| {
      assert errs[k].Some?;
    }
    if Join(errs).None? {
      forall i | 0 <= i < |spans|
        ensures Failure(s, store, w, ChunkOf(items, spans, i), i).None?
      {
        assert errs[i].None?;
      }
    }
    forall i | 0 <= i < |spans| && errs[i].Some? && slots[i] != map[]
      ensures ExchangeFor(s, store, w, ChunkOf(items, spans, i), i).decodeError.Some?
    {
      DecodedOnlyAfterSuccess(s, store, w, ChunkOf(items, spans, i), i);
    }
  }

  lemma DecodedOnlyAfterSuccess(s: Settings, store: string, w: World, chunk: seq<Item>, i: nat)
    ensures Decoded(s, store, w, chunk, i) != map[] && Failure(s, store, w, chunk, i).Some? ==>
      ExchangeFor(s, store, w, chunk, i).decodeError.Some?
  {
  }

  /** Every slot, whatever happened to its chunk, only has IDs of its own chunk. */
  ghost predicate OwnIds(items: seq<Item>, spans: seq<Span>, slots: seq<Results>) {
    |slots| == |spans| && forall i, id :: 0 <= i < |slots| && id in slots[i] ==> HasId(ChunkOf(items, spans, i), id)
  }

  ghost predicate HasId(items: seq<Item>, id: string) {
    exists j :: 0 <= j < |items| && items[j].id == id
  }

  lemma {:induction false} MergeAt(slots: seq<Results>, i: nat, id: string)
    requires i < |slots| && id in slots[i]
    requires forall m :: i < m < |slots| ==> id !in slots[m]
    ensures id in MergeAll(slots) && MergeAll(slots)[id] == slots[i][id]
  {
    var n := |slots| - 1;
    if i < n {
      MergeAt(slots[..n], i, id);
    }
  }

  /** IDs of different chunks differ. */
  lemma ChunkIdsDisjoint(items: seq<Item>, per: nat, i: nat, m: nat, id: string)
    requires per > 0 && Distinct(items) && i < m < |Spans(0, |items|, per)|
    requires HasId(ChunkOf(items, Spans(0, |items|, per), i), id)
    ensures !HasId(ChunkOf(items, Spans(0, |items|, per), m), id)
  {
    SpansInBounds(|items|, per);
    SpanAt(0, |items|, per, i);
    SpanAt(0, |items|, per, m);
    Times(i + 1, m, per);
    var a, b := Spans(0, |items|, per)[i], Spans(0, |items|, per)[m];
    var x :| 0 <= x < |ChunkOf(items, Spans(0, |items|, per), i)| && items[a.lo..a.hi][x].id == id;
    forall y | 0 <= y < |ChunkOf(items, Spans(0, |items|, per), m)|
      ensures items[b.lo..b.hi][y].id != id
    {
      assert items[a.lo + x].id != items[b.lo + y].id;
    }
  }

  /** Partial results are right even when some chunk failed midway: every item of a chunk without an
      error has its own answer in the merged map. */
  lemma SucceededItemAnswered(s: Settings, store: string, w: World, items: seq<Item>, answer: Check -> Single,
                              k: nat, slots: seq<Results>, errs: seq<Option<Error>>, i: nat, j: nat)
    requires Distinct(items)
    requires var spans := Spans(0, |items|, PerBatch(s));
      && FannedOut(s, store, w, items, spans, k, slots, errs) && Honest(s, store, w, answer)
      && OwnIds(items, spans, slots)
      && i < |spans| && errs[i].None? && j < |ChunkOf(items, spans, i)|
    ensures var item := ChunkOf(items, Spans(0, |items|, PerBatch(s)), i)[j];
      item.id in MergeAll(slots) && MergeAll(slots)[item.id] == answer(item.check)
  {
    var per, spans := PerBatch(s), Spans(0, |items|, PerBatch(s));
    var chunk := ChunkOf(items, spans, i);
    SpansInBounds(|items|, per);
    assert forall x :: 0 <= x < |chunk| ==> chunk[x] == items[spans[i].lo + x];
    AnswersAt(chunk, answer);
    assert i < k;
    HonestChunk(s, store, w, answer, chunk, i);
    assert HasId(chunk, chunk[j].id);
    forall m | i < m < |slots|
      ensures chunk[j].id !in slots[m]
    {
      ChunkIdsDisjoint(items, per, i, m, chunk[j].id);
    }
    MergeAt(slots, i, chunk[j].id);
  }

  // ---------------------------------------------------------------- the call

  /** How a call that got past its setup ends: its chunks, of at most maxChecksPerBatch items (50 unless that is
      positive), went through one fan-out; their results are merged and the errors of the failed ones joined. */
  ghost predicate Merged(s: Settings, store: string, w: World, items: seq<Item>, resp: Option<Results>,
                         err: Option<Error>, k: nat, slots: seq<Results>, errs: seq<Option<Error>>,
                         ctx: Option<Error>, fan: Fanout.Call) {
    && PerBatch(s) == (if s.maxChecksPerBatch >= 1 then s.maxChecksPerBatch else 50)
    && var spans := Spans(0, |items|, PerBatch(s));
    && FannedOut(s, store, w, items, spans, k, slots, errs) && SlotsMean(s, store, w, items, spans, k, slots, errs)
    && Fanout.Made(fan, |spans|, if s.maxParallel >= 1 then s.maxParallel else 10, errs, k, ctx)
    && resp == Some(MergeAll(slots)) && err == Join(errs)
  }

  /** BatchCheckAll. Setup failures give no response; otherwise the results of every chunk are merged
      and the errors of the failed ones joined. Without an error, whatever the chunk size, the worker
      limit and the schedule, the response of an honest server is that of one unchunked batch check. */
  method BatchCheckAll(s: Settings, checks: seq<Item>, gen: nat -> Result<string>, w: World)
    returns (resp: Option<Results>, err: Option<Error>, ghost k: nat, ghost slots: seq<Results>,
        ghost errs: seq<Option<Error>>, ghost ctx: Option<Error>, ghost fan: Fanout.Call)
    requires |checks| <= MAX_LEN && IsInt64(s.maxChecksPerBatch)
    ensures checks == [] ==> resp == Some(map[]) && err.None?
    ensures var store := if s.callStore != "" then s.callStore else s.clientStore;
      checks != [] ==>
        if store == "" then resp.None? && err == Some(NO_STORE)
        else if exists i :: 0 <= i < |checks| && Rejects(checks, gen, i) then
          resp.None? && err.Some? && FirstRejection(checks, gen, err.value)
        else Merged(s, store, w, Prepared(checks, gen), resp, err, k, slots, errs, ctx, fan)
    ensures var store := if s.callStore != "" then s.callStore else s.clientStore;
      err.None? ==> forall answer: Check -> Single ::
        Honest(s, store, w, answer) ==> resp == Some(AnswersTo(Prepared(checks, gen), answer))
  {
    hide SlotsMean, FannedOut, Fanout.Made, Honest;
    k, slots, errs, ctx, fan := 0, [], [], None, Fanout.Call(Fanout.Config(0, 0, _ => None), []);
    if checks == [] {
      return Some(map[]), None, k, slots, errs, ctx, fan;
    }
    var id := StoreFor(s.callStore, s.clientStore);
    if id.Fail? {
      return None, Some(id.error), k, slots, errs, ctx, fan;
    }
    var store := id.value;
    var prepared := Prepare(checks, gen);
    if prepared.Fail? {
      return None, Some(prepared.error), k, slots, errs, ctx, fan;
    }
    var items := prepared.value;
    var spans := Chunk(|items| as int64, PerBatch(s) as int64);
    var chunkResults, es;
    chunkResults, es, k, ctx, fan := FanOut(s, store, w, items, spans);
    slots, errs := chunkResults, es;
    var merged := Merge(chunkResults);
    if Join(es).None? {
      forall answer: Check -> Single | Honest(s, store, w, answer)
        ensures merged == AnswersTo(items, answer)
      {
        BatchRefinesSingle(s, store, w, items, answer, k, slots, errs);
      }
    }
    return Some(merged), Join(es), k, slots, errs, ctx, fan;
  }

  // ---------------------------------------------------------------- ListRelations

  datatype RelationsRequest = RelationsRequest(
    user: string, obj: string, contextualTuples: string, context: string, relations: seq<string>)

  function CheckFor(req: RelationsRequest, relation: string): Check {
    Check(req.user, relation, req.obj, req.contextualTuples, req.context)
  }

  /** The checks ListRelations builds: relation i under correlation ID i. */
  function RelationChecks(req: RelationsRequest): seq<Item> {
    seq(|req.relations|, i requires 0 <= i < |req.relations| => Item(CheckFor(req, req.relations[i]), Itoa(i)))
  }

  /** Indices print differently and never empty, so no ID is generated and none repeats; each has 1 to
      19 digits, within the 36 characters the server accepts. */
  lemma RelationIds(req: RelationsRequest, gen: nat -> Result<string>)
    requires |req.relations| <= MAX_LEN
    ensures var items := RelationChecks(req);
      && Distinct(items) && Prepared(items, gen) == items
      && (forall i :: 0 <= i < |items| ==> !Rejects(items, gen, i))
      && (forall i :: 0 <= i < |items| ==> 1 <= |items[i].id| <= 19 && AllDigits(items[i].id))
  {
    var items := RelationChecks(req);
    forall i | 0 <= i < |items|
      ensures 1 <= |items[i].id| <= 19 && AllDigits(items[i].id)
    {
      IndexLength(i);
    }
    forall i, j | 0 <= i < j < |items|
      ensures items[i].id != items[j].id
    {
      if items[i].id == items[j].id {
        ItoaInjective(i, j);
      }
    }
    assert Prepared(items, gen) == items;
  }

  /** resp.Result[id].Allowed: a missing entry reads as not allowed. */
  function IsAllowed(resp: Results, id: string): bool {
    id in resp && resp[id].allowed
  }

  /** The relations among the first n whose index is allowed in resp. */
  function Pick(relations: seq<string>, resp: Results, n: nat): seq<string>
    requires n <= |relations|
  {
    if n == 0 then []
    else Pick(relations, resp, n - 1) + if IsAllowed(resp, Itoa(n - 1)) then [relations[n - 1]] else []
  }

  /** A relation is picked exactly when its index has an entry that is allowed: a missing entry reads as not
      allowed. */
  lemma {:induction false} PickedMeans(relations: seq<string>, resp: Results, n: nat, rel: string)
    requires n <= |relations|
    ensures rel in Pick(relations, resp, n) <==>
      exists i :: 0 <= i < n && relations[i] == rel && Itoa(i) in resp.Keys && resp[Itoa(i)].allowed
  {
    if n > 0 {
      PickedMeans(relations, resp, n - 1, rel);
    }
  }

  function DuplicateRelation(rel: string): Error {
    Error(Other("openfga: duplicate relation " + rel + " in ListRelations"), [])
  }

  ghost predicate NoRepeat(relations: seq<string>) {
    forall i, j :: 0 <= i < j < |relations| ==> relations[i] != relations[j]
  }

  method BuildChecks(req: RelationsRequest) returns (r: Result<seq<Item>>)
    ensures r.Ok? <==> NoRepeat(req.relations)
    ensures r.Ok? ==> r.value == RelationChecks(req)
    ensures r.Fail? ==> exists rel :: rel in req.relations && r.error == DuplicateRelation(rel)
  {
    var checks: seq<Item> := [];
    var seen: set<string> := {};
    for i := 0 to |req.relations|
      invariant checks == RelationChecks(req)[..i]
      invariant seen == set m | 0 <= m < i :: req.relations[m]
      invariant NoRepeat(req.relations[..i])
    {
      var rel := req.relations[i];
      if rel in seen {
        assert rel in req.relations;
        return Fail(DuplicateRelation(rel));
      }
      seen := seen + {rel};
      checks := checks + [Item(CheckFor(req, rel), Itoa(i))];
      assert req.relations[..i + 1] == req.relations[..i] + [rel];
    }
    assert req.relations[..|req.relations|] == req.relations;
    r := Ok(checks);
  }

  /** The supplied relations that answer allows, in input order. */
  ghost function AllowedOf(req: RelationsRequest, answer: Check -> Single, n: nat): seq<string>
    requires n <= |req.relations|
  {
    if n == 0 then []
    else
      var rel := req.relations[n - 1];
      AllowedOf(req, answer, n - 1)
      + if answer(Check(req.user, rel, req.obj, req.contextualTuples, req.context)).allowed then [rel] else []
  }

  lemma {:induction false} PickMeans(req: RelationsRequest, answer: Check -> Single, resp: Results, n: nat)
    requires n <= |req.relations|
    requires forall i :: 0 <= i < |req.relations| ==>
      Itoa(i) in resp && resp[Itoa(i)] == answer(CheckFor(req, req.relations[i]))
    ensures Pick(req.relations, resp, n) == AllowedOf(req, answer, n)
  {
    if n > 0 {
      PickMeans(req, answer, resp, n - 1);
    }
  }

  /** On success ListRelations returns exactly the supplied relations whose check is allowed, in
      order, for every chunk size, worker limit and schedule. */
  lemma ListRelationsMeans(s: Settings, store: string, req: RelationsRequest, w: World, answer: Check -> Single,
                           k: nat, slots: seq<Results>, errs: seq<Option<Error>>)
    requires |req.relations| <= MAX_LEN
    requires var items := RelationChecks(req);
      var spans := Spans(0, |items|, PerBatch(s));
      FannedOut(s, store, w, items, spans, k, slots, errs) && Honest(s, store, w, answer)
    requires Join(errs).None?
    ensures Pick(req.relations, MergeAll(slots), |req.relations|) == AllowedOf(req, answer, |req.relations|)
  {
    var items := RelationChecks(req);
    RelationIds(req, _ => Ok(""));
    BatchRefinesSingle(s, store, w, items, answer, k, slots, errs);
    AnswersAt(items, answer);
    forall i | 0 <= i < |req.relations|
      ensures Itoa(i) in MergeAll(slots) && MergeAll(slots)[Itoa(i)] == answer(CheckFor(req, req.relations[i]))
    {
      assert items[i] == Item(CheckFor(req, req.relations[i]), Itoa(i));
    }
    PickMeans(req, answer, MergeAll(slots), |req.relations|);
  }

  /** ListRelations. Without an error, an honest server makes it return exactly the supplied relations whose
      check is allowed, in order. */
  method ListRelations(s: Settings, req: RelationsRequest, gen: nat -> Result<string>, w: World)
    returns (allowed: seq<string>, err: Option<Error>, ghost k: nat, ghost slots: seq<Results>,
        ghost errs: seq<Option<Error>>, ghost ctx: Option<Error>, ghost fan: Fanout.Call)
    requires |req.relations| <= MAX_LEN && IsInt64(s.maxChecksPerBatch)
    ensures req.relations == [] ==> err.None?
    ensures req.relations == [] || err.Some? ==> allowed == []
    ensures !NoRepeat(req.relations) ==> err.Some?
    ensures var store := if s.callStore != "" then s.callStore else s.clientStore;
      req.relations != [] && NoRepeat(req.relations) ==>
        if store == "" then err == Some(NO_STORE)
        else
          && Merged(s, store, w, RelationChecks(req), Some(MergeAll(slots)), err, k, slots, errs, ctx, fan)
          && (err.None? ==> allowed == Pick(req.relations, MergeAll(slots), |req.relations|))
    ensures var store := if s.callStore != "" then s.callStore else s.clientStore;
      err.None? ==> forall answer: Check -> Single ::
        Honest(s, store, w, answer) ==> allowed == AllowedOf(req, answer, |req.relations|)
  {
    hide Merged, Honest, FirstRejection;
    k, slots, errs, allowed, err, ctx := 0, [], [], [], None, None;
    fan := Fanout.Call(Fanout.Config(0, 0, _ => None), []);
    if |req.relations| == 0 {
      return;
    }
    var checks := BuildChecks(req);
    if checks.Fail? {
      err := Some(checks.error);
      return;
    }
    RelationIds(req, gen);
    var resp;
    resp, err, k, slots, errs, ctx, fan := BatchCheckAll(s, checks.value, gen, w);
    ghost var store := if s.callStore != "" then s.callStore else s.clientStore;
    if err.Some? {
      if store != "" {
        MergedResponse(s, store, w, checks.value, resp, err, k, slots, errs, ctx, fan);
      }
      return;
    }
    MergedResponse(s, store, w, checks.value, resp, err, k, slots, errs, ctx, fan);
    for i := 0 to |req.relations|
      invariant allowed == Pick(req.relations, resp.value, i)
    {
      if IsAllowed(resp.value, Itoa(i)) {
        allowed := allowed + [req.relations[i]];
      }
    }
    forall answer: Check -> Single | Honest(s, store, w, answer)
      ensures allowed == AllowedOf(req, answer, |req.relations|)
    {
      MergedFans(s, store, w, checks.value, resp, err, k, slots, errs, ctx, fan);
      ListRelationsMeans(s, store, req, w, answer, k, slots, errs);
    }
  }

  lemma MergedResponse(s: Settings, store: string, w: World, items: seq<Item>, resp: Option<Results>,
                       err: Option<Error>, k: nat, slots: seq<Results>, errs: seq<Option<Error>>,
                       ctx: Option<Error>, fan: Fanout.Call)
    requires Merged(s, store, w, items, resp, err, k, slots, errs, ctx, fan)
    ensures resp == Some(MergeAll(slots)) && err == Join(errs)
  {
  }

  lemma MergedFans(s: Settings, store: string, w: World, items: seq<Item>, resp: Option<Results>,
                   err: Option<Error>, k: nat, slots: seq<Results>, errs: seq<Option<Error>>,
                   ctx: Option<Error>, fan: Fanout.Call)
    requires Merged(s, store, w, items, resp, err, k, slots, errs, ctx, fan)
    ensures FannedOut(s, store, w, items, Spans(0, |items|, PerBatch(s)), k, slots, errs) && err == Join(errs)
  {
  }
}
