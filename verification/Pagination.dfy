/** The paginating iterators: a cursor that outlives the range loop, a consumer that may break after
    any item, and a server that hands out pages. */
module Pagination {
  import opened Basics
  import opened Decimal

  /** When a range ends after a page: on an empty token (All, ReadAll), or also on an empty page or a
      token that did not advance (ChangesAll). */
  datatype Rule = UntilEmptyToken | UntilCaughtUp

  datatype Page<T> = Page(items: seq<T>, token: string)

  datatype Reply<T> = Got(page: Page<T>) | Refused(err: Error)

  /** The server's answer to fetch number n with a token; any function is a possible server. */
  type Server<!T> = (nat, string) -> Reply<T>

  datatype Event<T> = Fetch(token: string) | Yield(item: T) | YieldError(err: Error)

  /** How a range ended; Unfinished when it is only observed for a limited number of fetches. */
  datatype Outcome = Finished | Broken | Failed | Unfinished

  predicate Ends<T>(rule: Rule, page: Page<T>, sent: string) {
    || page.token == ""
    || (rule == UntilCaughtUp && (|page.items| == 0 || page.token == sent))
  }

  function Yields<T>(items: seq<T>): seq<Event<T>> {
    seq(|items|, i requires 0 <= i < |items| => Yield(items[i]))
  }

  /** A range: what happens, the cursor and the fetch number it leaves behind, and how it ended. */
  datatype Run<T> = Run(events: seq<Event<T>>, cursor: string, fetches: nat, outcome: Outcome)

  /** The range from a cursor: the consumer accepts that many items and breaks on the next one; the
      range is observed for at most limit fetches. */
  function RangeFrom<T>(rule: Rule, server: Server<T>, n: nat, cursor: string, accepts: nat, limit: nat): Run<T>
    decreases limit
  {
    if limit == 0 then Run([], cursor, n, Unfinished)
    else match server(n, cursor)
      case Refused(e) => Run([Fetch(cursor), YieldError(e)], cursor, n + 1, Failed)
      case Got(page) =>
        if accepts < |page.items| then
          Run([Fetch(cursor)] + Yields(page.items[..accepts + 1]), cursor, n + 1, Broken)
        else if Ends(rule, page, cursor) then
          Run([Fetch(cursor)] + Yields(page.items), cursor, n + 1, Finished)
        else
          var r := RangeFrom(rule, server, n + 1, page.token, accepts - |page.items|, limit - 1);
          r.(events := [Fetch(cursor)] + Yields(page.items) + r.events)
  }

  /** The iterator value: its cursor and rule live outside the returned closure. */
  class Iterator<T> {
    const rule: Rule
    var cursor: string
    var fetches: nat

    constructor (rule: Rule, start: string)
      ensures this.rule == rule && cursor == start && fetches == 0
    {
      this.rule, cursor, fetches := rule, start, 0;
    }

    /** One range loop over the iterator. */
    method Range(server: Server<T>, accepts: nat, limit: nat) returns (events: seq<Event<T>>, outcome: Outcome)
      modifies this
      ensures var r := RangeFrom(rule, server, old(fetches), old(cursor), accepts, limit);
        events == r.events && outcome == r.outcome && cursor == r.cursor && fetches == r.fetches
    {
      events := [];
      var left: nat := accepts;
      var more: nat := limit;
      ghost var whole := RangeFrom(rule, server, fetches, cursor, accepts, limit);
      ghost var rest := whole;
      while more > 0
        invariant rest == RangeFrom(rule, server, fetches, cursor, left, more)
        invariant whole.events == events + rest.events
        invariant whole.cursor == rest.cursor && whole.fetches == rest.fetches && whole.outcome == rest.outcome
        decreases more
      {
        var sent := cursor;
        var reply := server(fetches, sent);
        fetches := fetches + 1;
        more := more - 1;
        if reply.Refused? {
          events := events + [Fetch(sent), YieldError(reply.err)];
          return events, Failed;
        }
        var page := reply.page;
        var yielded, accepted := Deliver(page.items, left);
        ghost var before := events;
        events := events + ([Fetch(sent)] + yielded);
        if !accepted {
          return events, Broken;
        }
        left := left - |page.items|;
        if Ends(rule, page, sent) {
          return events, Finished;
        }
        cursor := page.token;
        rest := RangeFrom(rule, server, fetches, cursor, left, more);
        Assoc(before, [Fetch(sent)] + yielded, rest.events);
      }
      outcome := Unfinished;
    }
  }

  lemma Assoc<T>(a: seq<T>, b: seq<T>, c: seq<T>)
    ensures (a + b) + c == a + (b + c)
  {
  }

  /** The inner loop over a page's items, against a consumer that accepts left more of them. */
  method Deliver<T>(items: seq<T>, left: nat) returns (yielded: seq<Event<T>>, accepted: bool)
    ensures accepted == (|items| <= left)
    ensures yielded == Yields(if accepted then items else items[..left + 1])
  {
    yielded := [];
    for i := 0 to |items|
      invariant i <= left && yielded == Yields(items[..i])
    {
      yielded := yielded + [Yield(items[i])];
      assert yielded == Yields(items[..i + 1]);
      if i == left {
        return yielded, false;
      }
    }
    assert items[..|items|] == items;
    accepted := true;
  }

  // ---------------------------------------------------------------- any server at all

  /** The items of a trace's yields, in order. */
  ghost function Items<T>(events: seq<Event<T>>): seq<T> {
    if events == [] then []
    else (if events[0].Yield? then [events[0].item] else []) + Items(events[1..])
  }

  ghost function ItemsOf<T>(r: Reply<T>): seq<T> {
    match r case Got(page) => page.items case Refused(_) => []
  }

  /** The items of all pages fetched in a trace whose first fetch has number n, in order. */
  ghost function FetchedItems<T>(server: Server<T>, n: nat, events: seq<Event<T>>): seq<T>
    decreases events
  {
    if events == [] then []
    else if events[0].Fetch? then ItemsOf(server(n, events[0].token)) + FetchedItems(server, n + 1, events[1..])
    else FetchedItems(server, n, events[1..])
  }

  lemma {:induction false} ItemsAppend<T>(a: seq<Event<T>>, b: seq<Event<T>>)
    ensures Items(a + b) == Items(a) + Items(b)
  {
    if a == [] {
      assert a + b == b;
    } else {
      ItemsAppend(a[1..], b);
      assert (a + b)[0] == a[0] && (a + b)[1..] == a[1..] + b;
      var first := if a[0].Yield? then [a[0].item] else [];
      assert Items(a + b) == first + Items(a[1..] + b);
      Assoc(first, Items(a[1..]), Items(b));
    }
  }

  lemma {:induction false} ItemsOfYields<T>(items: seq<T>)
    ensures Items(Yields(items)) == items
  {
    if items != [] {
      ItemsOfYields(items[1..]);
      assert Yields(items)[1..] == Yields(items[1..]);
    }
  }

  lemma {:induction false} FetchedAfterYields<T>(server: Server<T>, n: nat, items: seq<T>, rest: seq<Event<T>>)
    ensures FetchedItems(server, n, Yields(items) + rest) == FetchedItems(server, n, rest)
  {
    if items == [] {
      assert Yields(items) + rest == rest;
    } else {
      FetchedAfterYields(server, n, items[1..], rest);
      assert (Yields(items) + rest)[1..] == Yields(items[1..]) + rest;
    }
  }

  /** The trace of one page: the fetch, some of the page's items, and what follows. */
  lemma PageTrace<T>(server: Server<T>, n: nat, token: string, items: seq<T>, rest: seq<Event<T>>)
    ensures var es := [Fetch(token)] + Yields(items) + rest;
      && Items(es) == items + Items(rest)
      && FetchedItems(server, n, es) == ItemsOf(server(n, token)) + FetchedItems(server, n + 1, rest)
  {
    var es := [Fetch(token)] + Yields(items) + rest;
    assert es == [Fetch(token)] + (Yields(items) + rest);
    assert es[1..] == Yields(items) + rest;
    ItemsAppend(Yields(items), rest);
    ItemsOfYields(items);
    FetchedAfterYields(server, n + 1, items, rest);
  }

  lemma RefusedTrace<T>(server: Server<T>, n: nat, token: string, e: Error)
    requires server(n, token) == Refused(e)
    ensures var es: seq<Event<T>> := [Fetch(token), YieldError(e)];
      Items(es) == [] && FetchedItems(server, n, es) == [] && Items(es[..0]) == [] &&
        FetchedItems(server, n, es[..0]) == []
  {
    var es: seq<Event<T>> := [Fetch(token), YieldError(e)];
    var last: seq<Event<T>> := [YieldError(e)];
    var none: seq<Event<T>> := [];
    assert Items(none) == [] && FetchedItems(server, n + 1, none) == [];
    assert last[1..] == none;
    assert Items(last) == [] && FetchedItems(server, n + 1, last) == [];
    assert es[1..] == last;
  }

  /** A range observed for no fetch, and a range whose first fetch is refused. */
  lemma NoPage<T>(rule: Rule, server: Server<T>, n: nat, cursor: string, accepts: nat, limit: nat)
    requires limit == 0 || server(n, cursor).Refused?
    ensures var r := RangeFrom(rule, server, n, cursor, accepts, limit);
      && r == (if limit == 0 then Run([], cursor, n, Unfinished)
               else Run([Fetch(cursor), YieldError(server(n, cursor).err)], cursor, n + 1, Failed))
      && Items(r.events) == [] && FetchedItems(server, n, r.events) == []
  {
    if limit > 0 {
      RefusedTrace(server, n, cursor, server(n, cursor).err);
    }
  }

  /** The range goes on to another page. */
  predicate GoesOn<T>(rule: Rule, page: Page<T>, cursor: string, accepts: nat) {
    |page.items| <= accepts && !Ends(rule, page, cursor)
  }

  /** A range whose first fetch is answered: one page, then the rest. */
  lemma FirstPage<T>(rule: Rule, server: Server<T>, n: nat, cursor: string, accepts: nat, limit: nat)
    returns (some: seq<T>, rest: Run<T>)
    requires limit > 0 && server(n, cursor).Got?
    ensures var page := server(n, cursor).page;
      var r := RangeFrom(rule, server, n, cursor, accepts, limit);
      && some == (if accepts < |page.items| then page.items[..accepts + 1] else page.items)
      && r.events == [Fetch(cursor)] + Yields(some) + rest.events
      && r.cursor == rest.cursor && r.fetches == rest.fetches && r.outcome == rest.outcome
      && rest == if GoesOn(rule, page, cursor, accepts)
                 then RangeFrom(rule, server, n + 1, page.token, accepts - |page.items|, limit - 1)
                 else Run([], cursor, n + 1, if accepts < |page.items| then Broken else Finished)
    ensures var r := RangeFrom(rule, server, n, cursor, accepts, limit);
      && Items(r.events) == some + Items(rest.events)
      && FetchedItems(server, n, r.events) == server(n, cursor).page.items + FetchedItems(server, n + 1, rest.events)
  {
    var page := server(n, cursor).page;
    some := if accepts < |page.items| then page.items[..accepts + 1] else page.items;
    rest := if GoesOn(rule, page, cursor, accepts)
      then RangeFrom(rule, server, n + 1, page.token, accepts - |page.items|, limit - 1)
      else Run([], cursor, n + 1, if accepts < |page.items| then Broken else Finished);
    PageTrace(server, n, cursor, some, rest.events);
  }

  /** A range that goes on after its first page: what it delivers and how it ends. */
  lemma NextPage<T>(rule: Rule, server: Server<T>, n: nat, cursor: string, accepts: nat, limit: nat)
    requires limit > 0 && server(n, cursor).Got? && GoesOn(rule, server(n, cursor).page, cursor, accepts)
    ensures var page := server(n, cursor).page;
      var r := RangeFrom(rule, server, n, cursor, accepts, limit);
      var rest := RangeFrom(rule, server, n + 1, page.token, accepts - |page.items|, limit - 1);
      && r.(events := []) == rest.(events := []) && Items(r.events) == page.items + Items(rest.events)
      && FetchedItems(server, n, r.events) == page.items + FetchedItems(server, n + 1, rest.events)
  {
    var _, _ := FirstPage(rule, server, n, cursor, accepts, limit);
  }

  /** A range that stops after its first page: what it delivers. */
  lemma LastPage<T>(rule: Rule, server: Server<T>, n: nat, cursor: string, accepts: nat, limit: nat)
    requires limit > 0 && server(n, cursor).Got? && !GoesOn(rule, server(n, cursor).page, cursor, accepts)
    ensures var page := server(n, cursor).page;
      var r := RangeFrom(rule, server, n, cursor, accepts, limit);
      && r.cursor == cursor && r.fetches == n + 1
      && r.outcome == (if accepts < |page.items| then Broken else Finished)
      && Items(r.events) == (if accepts < |page.items| then page.items[..accepts + 1] else page.items)
      && FetchedItems(server, n, r.events) == page.items
  {
    var some, rest := FirstPage(rule, server, n, cursor, accepts, limit);
    assert Items(rest.events) == [] && FetchedItems(server, n + 1, rest.events) == [];
  }

  /** An event of a page-then-rest trace that is not a yield of the page is its first fetch or lies
      in the rest. */
  lemma Position<T>(cursor: string, some: seq<T>, rest: seq<Event<T>>, j: nat)
    requires var es := [Fetch(cursor)] + Yields(some) + rest; 0 < j < |es| && !es[j].Yield?
    ensures var es := [Fetch(cursor)] + Yields(some) + rest;
      var m := j - 1 - |some|;
      0 <= m < |rest| && rest[m] == es[j] && es[..j] == [Fetch(cursor)] + Yields(some) + rest[..m]
  {
    var es := [Fetch(cursor)] + Yields(some) + rest;
    assert forall i :: 0 < i <= |some| ==> es[i] == Yield(some[i - 1]);
  }

  /** Against any server: what is delivered is always a prefix of what was fetched, and all of it
      unless the consumer broke. */
  lemma {:induction false} DeliversWhatItFetched<T>(rule: Rule, server: Server<T>, n: nat, cursor: string,
      accepts: nat, limit: nat)
    ensures var r := RangeFrom(rule, server, n, cursor, accepts, limit);
      && Items(r.events) <= FetchedItems(server, n, r.events)
      && (r.outcome != Broken ==> Items(r.events) == FetchedItems(server, n, r.events))
    decreases limit
  {
    hide RangeFrom, Items, FetchedItems;
    if limit == 0 || server(n, cursor).Refused? {
      NoPage(rule, server, n, cursor, accepts, limit);
    } else if GoesOn(rule, server(n, cursor).page, cursor, accepts) {
      var page := server(n, cursor).page;
      NextPage(rule, server, n, cursor, accepts, limit);
      DeliversWhatItFetched(rule, server, n + 1, page.token, accepts - |page.items|, limit - 1);
    } else {
      LastPage(rule, server, n, cursor, accepts, limit);
    }
  }

  /** Against any server: at every fetch, all items of all earlier pages have been delivered. */
  lemma {:induction false} FetchOnlyWhenDelivered<T>(rule: Rule, server: Server<T>, n: nat, cursor: string,
      accepts: nat, limit: nat, j: nat)
    requires var r := RangeFrom(rule, server, n, cursor, accepts, limit); j < |r.events| && r.events[j].Fetch?
    ensures var r := RangeFrom(rule, server, n, cursor, accepts, limit);
      Items(r.events[..j]) == FetchedItems(server, n, r.events[..j])
    decreases limit
  {
    hide RangeFrom;
    if j == 0 {
      assert RangeFrom(rule, server, n, cursor, accepts, limit).events[..0] == [];
    } else {
      hide Items, FetchedItems;
      if limit == 0 || server(n, cursor).Refused? {
        NoPage(rule, server, n, cursor, accepts, limit);
      }
      var page := server(n, cursor).page;
      var some, rest := FirstPage(rule, server, n, cursor, accepts, limit);
      Position(cursor, some, rest.events, j);
      var m := j - 1 - |some|;
      FetchOnlyWhenDelivered(rule, server, n + 1, page.token, accepts - |page.items|, limit - 1, m);
      PageTrace(server, n, cursor, some, rest.events[..m]);
    }
  }

  /** Against any server: exactly one item beyond what the consumer accepts is yielded when it breaks,
      and none otherwise. */
  lemma {:induction false} StopsAtOnce<T>(rule: Rule, server: Server<T>, n: nat, cursor: string, accepts: nat,
      limit: nat)
    ensures var r := RangeFrom(rule, server, n, cursor, accepts, limit);
      if r.outcome == Broken then |Items(r.events)| == accepts + 1 else |Items(r.events)| <= accepts
    decreases limit
  {
    hide RangeFrom, Items, FetchedItems;
    if limit == 0 || server(n, cursor).Refused? {
      NoPage(rule, server, n, cursor, accepts, limit);
    } else if GoesOn(rule, server(n, cursor).page, cursor, accepts) {
      var page := server(n, cursor).page;
      NextPage(rule, server, n, cursor, accepts, limit);
      StopsAtOnce(rule, server, n + 1, page.token, accepts - |page.items|, limit - 1);
    } else {
      LastPage(rule, server, n, cursor, accepts, limit);
    }
  }

  /** Against any server: a break or an error is the last event. */
  lemma {:induction false} NothingAfterTheEnd<T>(rule: Rule, server: Server<T>, n: nat, cursor: string,
      accepts: nat, limit: nat)
    ensures var r := RangeFrom(rule, server, n, cursor, accepts, limit);
      && (r.outcome == Broken ==> r.events != [] && r.events[|r.events| - 1].Yield?)
      && (r.outcome == Failed ==> r.events != [] && r.events[|r.events| - 1].YieldError?)
    decreases limit
  {
    hide RangeFrom, Items, FetchedItems;
    if limit == 0 || server(n, cursor).Refused? {
      NoPage(rule, server, n, cursor, accepts, limit);
    } else {
      var page := server(n, cursor).page;
      var _, _ := FirstPage(rule, server, n, cursor, accepts, limit);
      if GoesOn(rule, page, cursor, accepts) {
        NothingAfterTheEnd(rule, server, n + 1, page.token, accepts - |page.items|, limit - 1);
      }
    }
  }

  /** Against any server: an error is yielded only when a fetch failed, and then once, last. */
  lemma {:induction false} ErrorIsLast<T>(rule: Rule, server: Server<T>, n: nat, cursor: string, accepts: nat,
      limit: nat, j: nat)
    requires var r := RangeFrom(rule, server, n, cursor, accepts, limit); j < |r.events| && r.events[j].YieldError?
    ensures var r := RangeFrom(rule, server, n, cursor, accepts, limit);
      r.outcome == Failed && j == |r.events| - 1
    decreases limit
  {
    hide RangeFrom, Items, FetchedItems;
    if limit == 0 || server(n, cursor).Refused? {
      NoPage(rule, server, n, cursor, accepts, limit);
    } else {
      var page := server(n, cursor).page;
      var some, rest := FirstPage(rule, server, n, cursor, accepts, limit);
      Position(cursor, some, rest.events, j);
      ErrorIsLast(rule, server, n + 1, page.token, accepts - |page.items|, limit - 1, j - 1 - |some|);
    }
  }

  /** ChangesAll against any server at all makes at most one fetch more than the items it yields, so
      it always ends: a consumer that accepts finitely many items sees finitely many fetches. */
  lemma {:induction false} FetchesBounded<T>(server: Server<T>, n: nat, cursor: string, accepts: nat, limit: nat)
    ensures var r := RangeFrom(UntilCaughtUp, server, n, cursor, accepts, limit);
      && n <= r.fetches <= n + |Items(r.events)| + 1
      && (limit >= accepts + 2 ==> r.outcome != Unfinished)
    decreases limit
  {
    hide RangeFrom, Items, FetchedItems;
    if limit == 0 || server(n, cursor).Refused? {
      NoPage(UntilCaughtUp, server, n, cursor, accepts, limit);
    } else if GoesOn(UntilCaughtUp, server(n, cursor).page, cursor, accepts) {
      var page := server(n, cursor).page;
      NextPage(UntilCaughtUp, server, n, cursor, accepts, limit);
      FetchesBounded(server, n + 1, page.token, accepts - |page.items|, limit - 1);
    } else {
      LastPage(UntilCaughtUp, server, n, cursor, accepts, limit);
    }
  }

  /** The tokens a trace's fetches send, in order. */
  ghost function Tokens<T>(events: seq<Event<T>>): seq<string> {
    if events == [] then []
    else (if events[0].Fetch? then [events[0].token] else []) + Tokens(events[1..])
  }

  lemma {:induction false} TokensAfterYields<T>(items: seq<T>, rest: seq<Event<T>>)
    ensures Tokens(Yields(items) + rest) == Tokens(rest)
  {
    if items == [] {
      assert Yields(items) + rest == rest;
    } else {
      TokensAfterYields(items[1..], rest);
      assert (Yields(items) + rest)[1..] == Yields(items[1..]) + rest;
    }
  }

  lemma PageTokens<T>(token: string, items: seq<T>, rest: seq<Event<T>>)
    ensures Tokens([Fetch(token)] + Yields(items) + rest) == [token] + Tokens(rest)
  {
    var es := [Fetch(token)] + Yields(items) + rest;
    assert es == [Fetch(token)] + (Yields(items) + rest);
    assert es[1..] == Yields(items) + rest;
    TokensAfterYields(items, rest);
  }

  /** The tokens of a range: its cursor first, never an empty one after that, and, for ChangesAll, never
      the same one twice in a row. */
  ghost predicate Advancing(rule: Rule, cursor: string, ts: seq<string>) {
    && (ts != [] ==> ts[0] == cursor)
    && (forall i :: 1 <= i < |ts| ==> ts[i] != "")
    && (rule == UntilCaughtUp ==> forall i :: 1 <= i < |ts| ==> ts[i] != ts[i - 1])
  }

  lemma AdvancingCons(rule: Rule, cursor: string, token: string, us: seq<string>)
    requires Advancing(rule, token, us) && token != "" && (rule == UntilCaughtUp ==> token != cursor)
    ensures Advancing(rule, cursor, [cursor] + us)
  {
    var ts := [cursor] + us;
    assert forall i :: 1 <= i < |ts| ==> ts[i] == us[i - 1];
  }

  /** Within a range every fetch after the first sends a token the server handed out, never an empty one;
      and ChangesAll never sends the token it sent just before, so a server that keeps handing back the
      same token ends the range. */
  lemma {:induction false} TokensAdvance<T>(rule: Rule, server: Server<T>, n: nat, cursor: string, accepts: nat,
      limit: nat)
    ensures Advancing(rule, cursor, Tokens(RangeFrom(rule, server, n, cursor, accepts, limit).events))
    decreases limit
  {
    hide RangeFrom, Items, FetchedItems;
    if limit == 0 || server(n, cursor).Refused? {
      NoPage(rule, server, n, cursor, accepts, limit);
      if limit > 0 {
        RefusedTokens<T>(cursor, server(n, cursor).err);
      }
    } else {
      hide Tokens, Ends, Advancing;
      var page := server(n, cursor).page;
      var some, rest := FirstPage(rule, server, n, cursor, accepts, limit);
      PageTokens(cursor, some, rest.events);
      if GoesOn(rule, page, cursor, accepts) {
        GoesOnToken(rule, page, cursor, accepts);
        TokensAdvance(rule, server, n + 1, page.token, accepts - |page.items|, limit - 1);
        AdvancingCons(rule, cursor, page.token, Tokens(rest.events));
      } else {
        NoTokens(rule, cursor, rest);
      }
    }
  }

  lemma GoesOnToken<T>(rule: Rule, page: Page<T>, cursor: string, accepts: nat)
    requires GoesOn(rule, page, cursor, accepts)
    ensures page.token != "" && (rule == UntilCaughtUp ==> page.token != cursor)
  {
  }

  lemma RefusedTokens<T>(cursor: string, e: Error)
    ensures var es: seq<Event<T>> := [Fetch(cursor), YieldError(e)]; Tokens(es) == [cursor]
  {
    var es: seq<Event<T>> := [Fetch(cursor), YieldError(e)];
    var last: seq<Event<T>> := [YieldError(e)];
    var none: seq<Event<T>> := [];
    assert es[1..] == last && last[1..] == none;
    assert Tokens(none) == [] && Tokens(last) == [];
  }

  /** Against any server: the range fetches again after a page exactly when the consumer took all of it and the
      page has a token, whether or not it has items; ChangesAll wants items and another token than it sent too.
      The next fetch sends the page's token. */
  lemma NextFetchMeans<T>(rule: Rule, server: Server<T>, n: nat, cursor: string, accepts: nat, limit: nat)
    requires limit >= 2 && server(n, cursor).Got?
    ensures var page := server(n, cursor).page;
      var ts := Tokens(RangeFrom(rule, server, n, cursor, accepts, limit).events);
      && |ts| >= 1 && ts[0] == cursor
      && (|ts| > 1 <==>
            && |page.items| <= accepts && page.token != ""
            && (rule == UntilCaughtUp ==> page.items != [] && page.token != cursor))
      && (|ts| > 1 ==> ts[1] == page.token)
  {
    hide RangeFrom, Items, FetchedItems, Tokens, Ends;
    EndsMeans(rule, server(n, cursor).page, cursor);
    var page := server(n, cursor).page;
    var some, rest := FirstPage(rule, server, n, cursor, accepts, limit);
    PageTokens(cursor, some, rest.events);
    if GoesOn(rule, page, cursor, accepts) {
      TokensAdvance(rule, server, n + 1, page.token, accepts - |page.items|, limit - 1);
      FirstToken(rule, server, n + 1, page.token, accepts - |page.items|, limit - 1);
    } else {
      EmptyTokens(rest);
    }
  }

  lemma EndsMeans<T>(rule: Rule, page: Page<T>, cursor: string)
    ensures !Ends(rule, page, cursor) <==>
      page.token != "" && (rule == UntilCaughtUp ==> page.items != [] && page.token != cursor)
  {
  }

  lemma FirstToken<T>(rule: Rule, server: Server<T>, n: nat, cursor: string, accepts: nat, limit: nat)
    requires limit >= 1
    ensures Tokens(RangeFrom(rule, server, n, cursor, accepts, limit).events) != []
  {
    assert RangeFrom(rule, server, n, cursor, accepts, limit).events[0] == Fetch(cursor);
  }

  lemma EmptyTokens<T>(r: Run<T>)
    requires r.events == []
    ensures Tokens(r.events) == []
  {
  }

  lemma NoTokens<T>(rule: Rule, cursor: string, r: Run<T>)
    requires r.events == []
    ensures Advancing(rule, cursor, [cursor] + Tokens(r.events))
  {
  }

  // ---------------------------------------------------------------- a server over an append-only log

  /** An append-only log as fetch n finds it: the first visible(n) entries, in pages of at most size;
      refuse injects fetch errors. */
  datatype Log<!T> = Log(entries: seq<T>, visible: nat -> nat, size: nat, refuse: nat -> Option<Error>)

  ghost predicate Good<T>(log: Log<T>) {
    && log.size >= 1 && |log.entries| < TWO_63
    && (forall n :: log.visible(n) <= |log.entries|)
    && (forall m, n :: m <= n ==> log.visible(m) <= log.visible(n))
  }

  /** The answer to fetch n with a token that stands for an offset: the next page, as full as the log
      allows, and a token for the offset it reached. A list ends with an empty token; the token of a
      change feed is never empty. */
  ghost predicate Answers<T>(rule: Rule, log: Log<T>, at: string -> nat, n: nat, sent: string, reply: Reply<T>) {
    match log.refuse(n)
    case Some(e) => reply == Refused(e)
    case None =>
      var off := at(sent);
      && reply.Got?
      && var end := off + |reply.page.items|;
      && end <= log.visible(n) <= |log.entries|
      && reply.page.items == log.entries[off..end]
      && |reply.page.items| == Min(log.size, log.visible(n) - off)
      && (reply.page.token != "" ==> at(reply.page.token) == end)
      && (reply.page.token == "" <==> rule == UntilEmptyToken && end == log.visible(n))
  }

  /** A server over the log whose tokens stand for offsets, in whatever way. */
  ghost predicate Serves<T>(server: Server<T>, rule: Rule, log: Log<T>, at: string -> nat) {
    forall n, token {:trigger Answers(rule, log, at, n, token, server(n, token))} ::
      at(token) <= log.visible(n) ==> Answers(rule, log, at, n, token, server(n, token))
  }

  /** A page of a log, and whether the range goes on after it. */
  lemma LogPage<T>(rule: Rule, server: Server<T>, log: Log<T>, at: string -> nat, n: nat, cursor: string)
    requires Good(log) && Serves(server, rule, log, at) && at(cursor) <= log.visible(n) && server(n, cursor).Got?
    ensures var page := server(n, cursor).page;
      var end := at(cursor) + |page.items|;
      && end <= log.visible(n) <= log.visible(n + 1) <= |log.entries| && page.items == log.entries[at(cursor)..end]
      && |page.items| == Min(log.size, log.visible(n) - at(cursor))
      && (Ends(rule, page, cursor) <==> if rule == UntilEmptyToken then end == log.visible(n) else |page.items| == 0)
      && (!Ends(rule, page, cursor) ==> at(page.token) == end && |page.items| > 0)
  {
    assert Answers(rule, log, at, n, cursor, server(n, cursor));
  }

  /** Two adjacent stretches of a sequence make one. */
  lemma Adjacent<T>(s: seq<T>, a: nat, b: nat, c: nat)
    requires a <= b <= c <= |s|
    ensures s[a..b] + s[b..c] == s[a..c]
  {
  }

  /** A run that started at a cursor with fetch n delivered a contiguous stretch of the log; the cursor
      it leaves is at the start of the page it stopped in; and a run that ended by itself has delivered
      everything its last fetch could see. */
  ghost predicate Stretch<T>(log: Log<T>, at: string -> nat, n: nat, cursor: string, r: Run<T>) {
    var off, next, items := at(cursor), at(r.cursor), Items(r.events);
    var end := off + |items|;
    && end <= |log.entries| && items == log.entries[off..end]
    && off <= next <= end <= next + log.size
    && n <= r.fetches && next <= log.visible(r.fetches)
    && (r.outcome == Finished ==> n < r.fetches && end == log.visible(r.fetches - 1))
  }

  /** A page in front of a contiguous run. */
  lemma PageThenStretch<T>(log: Log<T>, at: string -> nat, n: nat, cursor: string, token: string, items: seq<T>,
                           r: Run<T>, rest: Run<T>)
    requires at(token) == at(cursor) + |items| <= |log.entries| && items == log.entries[at(cursor)..at(token)]
    requires Stretch(log, at, n + 1, token, rest)
    requires r.(events := []) == rest.(events := []) && Items(r.events) == items + Items(rest.events)
    ensures Stretch(log, at, n, cursor, r)
  {
    Adjacent(log.entries, at(cursor), at(token), at(token) + |Items(rest.events)|);
  }

  /** Where a range that goes on is after its first page. */
  lemma GoesOnAt<T>(rule: Rule, server: Server<T>, log: Log<T>, at: string -> nat, n: nat, cursor: string, accepts: nat)
    requires Good(log) && Serves(server, rule, log, at) && at(cursor) <= log.visible(n)
    requires server(n, cursor).Got? && GoesOn(rule, server(n, cursor).page, cursor, accepts)
    ensures var page := server(n, cursor).page;
      && |page.items| <= accepts
      && at(page.token) == at(cursor) + |page.items| <= log.visible(n + 1) <= |log.entries|
      && page.items == log.entries[at(cursor)..at(page.token)]
  {
    LogPage(rule, server, log, at, n, cursor);
  }

  /** A range that stops in its first page. */
  lemma StopsInPage<T>(rule: Rule, server: Server<T>, log: Log<T>, at: string -> nat,
                       n: nat, cursor: string, accepts: nat, limit: nat)
    requires Good(log) && Serves(server, rule, log, at) && at(cursor) <= log.visible(n)
    requires limit > 0 && server(n, cursor).Got? && !GoesOn(rule, server(n, cursor).page, cursor, accepts)
    ensures Stretch(log, at, n, cursor, RangeFrom(rule, server, n, cursor, accepts, limit))
  {
    hide RangeFrom, Items, Serves;
    LogPage(rule, server, log, at, n, cursor);
    LastPage(rule, server, n, cursor, accepts, limit);
    var page := server(n, cursor).page;
    var off := at(cursor);
    assert accepts < |page.items| ==> page.items[..accepts + 1] == log.entries[off..off + accepts + 1];
  }

  /** A range without a page. */
  lemma StopsWithoutPage<T>(rule: Rule, server: Server<T>, log: Log<T>, at: string -> nat,
                            n: nat, cursor: string, accepts: nat, limit: nat)
    requires Good(log) && at(cursor) <= log.visible(n) && (limit == 0 || server(n, cursor).Refused?)
    ensures Stretch(log, at, n, cursor, RangeFrom(rule, server, n, cursor, accepts, limit))
  {
    hide RangeFrom, Items;
    NoPage(rule, server, n, cursor, accepts, limit);
    assert log.visible(n) <= log.visible(n + 1) <= |log.entries|;
    assert log.entries[at(cursor)..at(cursor)] == [];
  }

  /** However the log grows between fetches and wherever the consumer breaks, a range delivers a
      contiguous run of the log from its cursor, without gap or duplicate. */
  lemma {:induction false} Contiguous<T>(rule: Rule, server: Server<T>, log: Log<T>, at: string -> nat,
                                         n: nat, cursor: string, accepts: nat, limit: nat)
    requires Good(log) && Serves(server, rule, log, at) && at(cursor) <= log.visible(n)
    ensures Stretch(log, at, n, cursor, RangeFrom(rule, server, n, cursor, accepts, limit))
    decreases limit
  {
    hide *;
    if limit == 0 || server(n, cursor).Refused? {
      StopsWithoutPage(rule, server, log, at, n, cursor, accepts, limit);
    } else {
      var page := server(n, cursor).page;
      if GoesOn(rule, page, cursor, accepts) {
        GoesOnAt(rule, server, log, at, n, cursor, accepts);
        NextPage(rule, server, n, cursor, accepts, limit);
        Contiguous(rule, server, log, at, n + 1, page.token, accepts - |page.items|, limit - 1);
        PageThenStretch(log, at, n, cursor, page.token, page.items,
          RangeFrom(rule, server, n, cursor, accepts, limit),
          RangeFrom(rule, server, n + 1, page.token, accepts - |page.items|, limit - 1));
      } else {
        StopsInPage(rule, server, log, at, n, cursor, accepts, limit);
      }
    }
  }

  /** How many pages of the given size hold m entries. */
  ghost function Pages(m: nat, size: nat): nat
    requires size >= 1
  {
    if m == 0 then 0 else if m <= size then 1 else 1 + Pages(m - size, size)
  }

  /** Pages is the ceiling of m / size. */
  lemma {:induction false} PagesMeans(m: nat, size: nat)
    requires size >= 1
    ensures Pages(m, size) * size >= m
    ensures Pages(m, size) > 0 ==> (Pages(m, size) - 1) * size < m
  {
    if m > size {
      PagesMeans(m - size, size);
    }
  }

  /** The fetches of a full range over m entries: a list needs at least one page, and a change feed one
      page more, the empty one. */
  ghost function FullFetches(rule: Rule, m: nat, size: nat): nat
    requires size >= 1
  {
    if rule == UntilCaughtUp then Pages(m, size) + 1 else if m == 0 then 1 else Pages(m, size)
  }

  /** On a log that does not change, with m entries left: All and ReadAll deliver them all with
      max(1, ceil(m / size)) fetches, ChangesAll with ceil(m / size) + 1. */
  lemma {:induction false} FixedLogFetches<T>(rule: Rule, server: Server<T>, log: Log<T>, at: string -> nat,
                                              n: nat, cursor: string, accepts: nat, limit: nat)
    requires Good(log) && Serves(server, rule, log, at) && at(cursor) <= |log.entries|
    requires forall k :: log.visible(k) == |log.entries| && log.refuse(k).None?
    requires accepts >= |log.entries| - at(cursor)
    requires limit >= FullFetches(rule, |log.entries| - at(cursor), log.size)
    ensures var r := RangeFrom(rule, server, n, cursor, accepts, limit);
      && r.outcome == Finished && Items(r.events) == log.entries[at(cursor)..]
      && r.fetches == n + FullFetches(rule, |log.entries| - at(cursor), log.size)
    decreases limit
  {
    hide RangeFrom;
    assert Answers(rule, log, at, n, cursor, server(n, cursor));
    LogPage(rule, server, log, at, n, cursor);
    var page := server(n, cursor).page;
    if GoesOn(rule, page, cursor, accepts) {
      NextPage(rule, server, n, cursor, accepts, limit);
      FixedLogFetches(rule, server, log, at, n + 1, page.token, accepts - |page.items|, limit - 1);
      Adjacent(log.entries, at(cursor), at(page.token), |log.entries|);
    } else {
      LastPage(rule, server, n, cursor, accepts, limit);
    }
  }

  // ---------------------------------------------------------------- break and range again

  /** One range of a session, with the cursor it started from. */
  datatype Lap<T> = Lap(from: string, run: Run<T>)

  /** Ranging again and again over one iterator: each range starts at the cursor the last one left. */
  ghost function Session<T>(rule: Rule, server: Server<T>, n: nat, cursor: string, accepts: seq<nat>, limit: nat)
    : (laps: seq<Lap<T>>)
    ensures |laps| == |accepts|
    decreases |accepts|
  {
    if accepts == [] then []
    else
      var r := RangeFrom(rule, server, n, cursor, accepts[0], limit);
      [Lap(cursor, r)] + Session(rule, server, r.fetches, r.cursor, accepts[1..], limit)
  }

  ghost function Start<T>(at: string -> nat, lap: Lap<T>): nat { at(lap.from) }

  ghost function End<T>(at: string -> nat, lap: Lap<T>): nat { at(lap.from) + |Items(lap.run.events)| }

  /** Each range of a session delivers a stretch of the log that starts no earlier than the one before
      and no later than where that one ended. */
  lemma {:induction false} Stretches<T>(rule: Rule, server: Server<T>, log: Log<T>, at: string -> nat,
                                        n: nat, cursor: string, accepts: seq<nat>, limit: nat, i: nat)
    requires Good(log) && Serves(server, rule, log, at) && at(cursor) <= log.visible(n) && i < |accepts|
    ensures var laps := Session(rule, server, n, cursor, accepts, limit);
      var start, end := Start(at, laps[i]), End(at, laps[i]);
      && at(cursor) <= start <= end <= |log.entries| && Items(laps[i].run.events) == log.entries[start..end]
    decreases |accepts|
  {
    hide RangeFrom, Serves, Good;
    Contiguous(rule, server, log, at, n, cursor, accepts[0], limit);
    if i > 0 {
      var r := RangeFrom(rule, server, n, cursor, accepts[0], limit);
      Stretches(rule, server, log, at, r.fetches, r.cursor, accepts[1..], limit, i - 1);
    }
  }

  /** An item that two ranges of a session both deliver lies in the page the earlier one stopped in,
      the page fetched again. */
  lemma {:induction false} RepeatsOnlyRefetched<T>(rule: Rule, server: Server<T>, log: Log<T>, at: string -> nat,
                                                   n: nat, cursor: string, accepts: seq<nat>, limit: nat, i: nat,
                                                     j: nat)
    requires Good(log) && Serves(server, rule, log, at) && at(cursor) <= log.visible(n) && i < j < |accepts|
    ensures var laps := Session(rule, server, n, cursor, accepts, limit);
      && Start(at, laps[i]) <= at(laps[i].run.cursor) <= Start(at, laps[j])
      && End(at, laps[i]) <= at(laps[i].run.cursor) + log.size
    decreases |accepts|
  {
    hide RangeFrom, Serves, Good;
    Contiguous(rule, server, log, at, n, cursor, accepts[0], limit);
    var r := RangeFrom(rule, server, n, cursor, accepts[0], limit);
    if i > 0 {
      RepeatsOnlyRefetched(rule, server, log, at, r.fetches, r.cursor, accepts[1..], limit, i - 1, j - 1);
    } else {
      Stretches(rule, server, log, at, r.fetches, r.cursor, accepts[1..], limit, j - 1);
    }
  }

  /** Ranging again starts where the last range left the cursor. */
  lemma {:induction false} NextStart<T>(rule: Rule, server: Server<T>, n: nat, cursor: string, accepts: seq<nat>,
                                        limit: nat, i: nat)
    requires i + 1 < |accepts|
    ensures var laps := Session(rule, server, n, cursor, accepts, limit); laps[i + 1].from == laps[i].run.cursor
    decreases |accepts|
  {
    hide RangeFrom;
    if i > 0 {
      var r := RangeFrom(rule, server, n, cursor, accepts[0], limit);
      NextStart(rule, server, r.fetches, r.cursor, accepts[1..], limit, i - 1);
    }
  }

  ghost predicate DeliveredBy<T>(at: string -> nat, lap: Lap<T>, p: nat) {
    Start(at, lap) <= p < End(at, lap)
  }

  /** Two consecutive ranges deliver an item in common exactly when the first had delivered something of
      the page it stopped in and the second delivers anything at all. */
  lemma RepeatMeans<T>(rule: Rule, server: Server<T>, log: Log<T>, at: string -> nat,
                       n: nat, cursor: string, accepts: seq<nat>, limit: nat, i: nat)
    requires Good(log) && Serves(server, rule, log, at) && at(cursor) <= log.visible(n) && i + 1 < |accepts|
    ensures var laps := Session(rule, server, n, cursor, accepts, limit);
      (exists p :: DeliveredBy(at, laps[i], p) && DeliveredBy(at, laps[i + 1], p)) <==>
      End(at, laps[i]) > at(laps[i].run.cursor) && Items(laps[i + 1].run.events) != []
  {
    hide RangeFrom, Serves, Good, Session, Items;
    var laps := Session(rule, server, n, cursor, accepts, limit);
    NextStart(rule, server, n, cursor, accepts, limit, i);
    RepeatsOnlyRefetched(rule, server, log, at, n, cursor, accepts, limit, i, i + 1);
    var p := Start(at, laps[i + 1]);
    if End(at, laps[i]) > at(laps[i].run.cursor) && Items(laps[i + 1].run.events) != [] {
      assert DeliveredBy(at, laps[i], p) && DeliveredBy(at, laps[i + 1], p);
    }
  }

  /** A drained change feed leaves nothing to repeat: the last page was empty, so the cursor is where the
      delivered stretch ends. */
  lemma {:induction false} DrainedLeavesNothing<T>(server: Server<T>, log: Log<T>, at: string -> nat,
                                                   n: nat, cursor: string, accepts: nat, limit: nat)
    requires Good(log) && Serves(server, UntilCaughtUp, log, at) && at(cursor) <= log.visible(n)
    requires RangeFrom(UntilCaughtUp, server, n, cursor, accepts, limit).outcome == Finished
    ensures var r := RangeFrom(UntilCaughtUp, server, n, cursor, accepts, limit);
      at(r.cursor) == at(cursor) + |Items(r.events)|
    decreases limit
  {
    hide RangeFrom, Serves, Good, Items;
    if limit == 0 || server(n, cursor).Refused? {
      NoPage(UntilCaughtUp, server, n, cursor, accepts, limit);
    } else {
      var page := server(n, cursor).page;
      LogPage(UntilCaughtUp, server, log, at, n, cursor);
      if GoesOn(UntilCaughtUp, page, cursor, accepts) {
        NextPage(UntilCaughtUp, server, n, cursor, accepts, limit);
        GoesOnAt(UntilCaughtUp, server, log, at, n, cursor, accepts);
        DrainedLeavesNothing(server, log, at, n + 1, page.token, accepts - |page.items|, limit - 1);
      } else {
        LastPage(UntilCaughtUp, server, n, cursor, accepts, limit);
      }
    }
  }

  /** Across any breaks and ranges, every item from the start to as far as any range got is delivered
      by some range. */
  lemma {:induction false} NothingSkipped<T>(rule: Rule, server: Server<T>, log: Log<T>, at: string -> nat,
                                             n: nat, cursor: string, accepts: seq<nat>, limit: nat, k: nat, p: nat)
    returns (i: nat)
    requires Good(log) && Serves(server, rule, log, at) && at(cursor) <= log.visible(n) && k < |accepts|
    requires at(cursor) <= p < End(at, Session(rule, server, n, cursor, accepts, limit)[k])
    ensures var laps := Session(rule, server, n, cursor, accepts, limit);
      && i <= k && Start(at, laps[i]) <= p < End(at, laps[i])
      && p < |log.entries| && Items(laps[i].run.events)[p - Start(at, laps[i])] == log.entries[p]
    decreases |accepts|
  {
    hide RangeFrom, Serves, Good;
    Contiguous(rule, server, log, at, n, cursor, accepts[0], limit);
    var r := RangeFrom(rule, server, n, cursor, accepts[0], limit);
    if p < at(cursor) + |Items(r.events)| {
      i := 0;
    } else {
      var m := NothingSkipped(rule, server, log, at, r.fetches, r.cursor, accepts[1..], limit, k - 1, p);
      i := m + 1;
    }
  }

  // ---------------------------------------------------------------- decimal offsets as tokens

  /** The offset a decimal token stands for; no token is the start. */
  function Offset(token: string): nat {
    match Atoi(token)
    case Some(v) => if v >= 0 then v else 0
    case None => 0
  }

  function LogReply<T>(rule: Rule, log: Log<T>, n: nat, token: string): Reply<T> {
    var off := Offset(token);
    var seen := log.visible(n);
    var end := if off <= seen then off + Min(log.size, seen - off) else off;
    if log.refuse(n).Some? then Refused(log.refuse(n).value)
    else Got(Page(if off <= end <= |log.entries| then log.entries[off..end] else [],
                  if rule == UntilEmptyToken && end == seen then "" else Itoa(end)))
  }

  function LogServer<T>(rule: Rule, log: Log<T>): Server<T> {
    (n: nat, token: string) => LogReply(rule, log, n, token)
  }

  lemma OffsetOfItoa(k: nat)
    requires k < TWO_63
    ensures Offset(Itoa(k)) == k && Itoa(k) != ""
  {
    AtoiItoa(k);
    ValueOfItoa(k);
  }

  /** There is such a server for every log: its tokens are decimal offsets. */
  lemma LogServes<T>(rule: Rule, log: Log<T>)
    requires Good(log)
    ensures Serves(LogServer(rule, log), rule, log, Offset)
  {
    hide Offset, Itoa;
    forall n, token | Offset(token) <= log.visible(n)
      ensures Answers(rule, log, Offset, n, token, LogServer(rule, log)(n, token))
    {
      var off := Offset(token);
      OffsetOfItoa(off + Min(log.size, log.visible(n) - off));
    }
  }
}
