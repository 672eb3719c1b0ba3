/** The layers between the retry loop and the base transport, and the headers they put on a
    request. Header keys are in canonical form, as Add and Set leave them. */
module Headers {
  import opened Basics

  type Header = map<string, seq<string>>

  function Values(h: Header, k: string): seq<string> {
    if k in h then h[k] else []
  }

  function Get(h: Header, k: string): string {
    if Values(h, k) == [] then "" else Values(h, k)[0]
  }

  function Set(h: Header, k: string, v: string): Header {
    h[k := [v]]
  }

  function Add(h: Header, k: string, v: string): Header {
    h[k := Values(h, k) + [v]]
  }

  /** bearerTransport, headerTransport, observerTransport. */
  datatype Layer = Bearer(token: string) | Static(header: Header) | Observe

  const AUTHORIZATION := "Authorization"

  /** The values a static header set leaves at key k: its own are added only where the request has
      no non-empty first value. */
  function Overlaid(h: Header, fixed: Header, k: string): seq<string> {
    if k in fixed && Get(h, k) == "" then Values(h, k) + fixed[k] else Values(h, k)
  }

  /** h with the static headers applied, as one map. */
  function Overlay(h: Header, fixed: Header): Header {
    map k | k in h.Keys + fixed.Keys && (k in h || fixed[k] != []) :: Overlaid(h, fixed, k)
  }

  /** The headers a layer hands on. */
  function Through(l: Layer, h: Header): Header {
    match l
    case Bearer(token) => Set(h, AUTHORIZATION, "Bearer " + token)
    case Static(fixed) => Overlay(h, fixed)
    case Observe => h
  }

  /** What the base transport sees of a request with headers h. */
  function Decorate(layers: seq<Layer>, h: Header): Header {
    if layers == [] then h else Decorate(layers[1..], Through(layers[0], h))
  }

  /** What the observers see, innermost first. */
  function Observed(layers: seq<Layer>, h: Header): seq<Header> {
    if layers == [] then []
    else Observed(layers[1..], Through(layers[0], h)) + if layers[0].Observe? then [h] else []
  }

  /** Adding the values of one static key one by one. */
  method AddAll(h: Header, k: string, vs: seq<string>) returns (r: Header)
    ensures r == if vs == [] then h else h[k := Values(h, k) + vs]
  {
    r := h;
    for i := 0 to |vs|
      invariant i == 0 ==> r == h
      invariant i > 0 ==> r == h[k := Values(h, k) + vs[..i]]
    {
      assert Values(r, k) == Values(h, k) + vs[..i];
      assert Values(h, k) + vs[..i] + [vs[i]] == Values(h, k) + vs[..i + 1];
      r := Add(r, k, vs[i]);
    }
    assert vs[..|vs|] == vs;
  }

  /** The entry at k once the static keys in done have been applied. */
  ghost function Entry(h: Header, fixed: Header, done: set<string>, k: string): Option<seq<string>> {
    if k in done && k in fixed && fixed[k] != [] && Get(h, k) == "" then Some(Values(h, k) + fixed[k])
    else if k in h then Some(h[k])
    else None
  }

  ghost predicate Applied(r: Header, h: Header, fixed: Header, done: set<string>) {
    forall k :: Entry(r, map[], {}, k) == Entry(h, fixed, done, k)
  }

  lemma AppliedStep(r: Header, h: Header, fixed: Header, done: set<string>, k: string)
    requires Applied(r, h, fixed, done) && k in fixed && k !in done
    ensures Get(r, k) == Get(h, k) && Values(r, k) == Values(h, k)
    ensures Get(h, k) != "" || fixed[k] == [] ==> Applied(r, h, fixed, done + {k})
    ensures Get(h, k) == "" && fixed[k] != [] ==> Applied(r[k := Values(r, k) + fixed[k]], h, fixed, done + {k})
  {
    assert Entry(r, map[], {}, k) == Entry(h, fixed, done, k);
    forall x | x != k
      ensures Entry(h, fixed, done + {k}, x) == Entry(h, fixed, done, x) == Entry(r, map[], {}, x)
    {
    }
  }

  lemma AppliedAll(r: Header, h: Header, fixed: Header)
    requires Applied(r, h, fixed, fixed.Keys)
    ensures r == Overlay(h, fixed)
  {
    forall k
      ensures k in r <==> k in Overlay(h, fixed)
      ensures k in r ==> r[k] == Overlay(h, fixed)[k]
    {
      assert Entry(r, map[], {}, k) == Entry(h, fixed, fixed.Keys, k);
    }
  }

  /** headerTransport's loop over its header map, whatever order the map is ranged in. */
  method ApplyStatic(h: Header, fixed: Header) returns (r: Header)
    ensures r == Overlay(h, fixed)
  {
    r := h;
    var todo := fixed.Keys;
    while todo != {}
      invariant todo <= fixed.Keys
      invariant Applied(r, h, fixed, fixed.Keys - todo)
      decreases |todo|
    {
      var k :| k in todo;
      AppliedStep(r, h, fixed, fixed.Keys - todo, k);
      assert fixed.Keys - (todo - {k}) == fixed.Keys - todo + {k};
      todo := todo - {k};
      if Get(r, k) == "" {
        r := AddAll(r, k, fixed[k]);
      }
    }
    assert fixed.Keys - todo == fixed.Keys;
    AppliedAll(r, h, fixed);
  }

  /** The transport-layer configuration of a client. */
  datatype ClientConfig = ClientConfig(token: Option<string>, staticHeaders: Header, observer: bool)

  /** buildTransport below its retry layer: each layer wraps what is there so far. */
  method BuildTransport(c: ClientConfig) returns (layers: seq<Layer>)
    ensures layers == Layers(c)
  {
    layers := [];
    if c.observer {
      layers := [Observe] + layers;
    }
    if |c.staticHeaders| > 0 {
      layers := [Static(c.staticHeaders)] + layers;
    }
    if c.token.Some? {
      layers := [Bearer(c.token.value)] + layers;
    }
  }

  function Layers(c: ClientConfig): seq<Layer> {
    (if c.token.Some? then [Bearer(c.token.value)] else [])
    + (if |c.staticHeaders| > 0 then [Static(c.staticHeaders)] else [])
    + (if c.observer then [Observe] else [])
  }

  function Inner(c: ClientConfig): seq<Layer> {
    if c.observer then [Observe] else []
  }

  function Middle(c: ClientConfig): seq<Layer> {
    (if |c.staticHeaders| > 0 then [Static(c.staticHeaders)] else []) + Inner(c)
  }

  ghost function Authorized(c: ClientConfig, h: Header): Header {
    if c.token.Some? then Through(Bearer(c.token.value), h) else h
  }

  lemma DecorateCons(l: Layer, rest: seq<Layer>, h: Header)
    ensures Decorate([l] + rest, h) == Decorate(rest, Through(l, h))
    ensures Observed([l] + rest, h) == Observed(rest, Through(l, h)) + if l.Observe? then [h] else []
  {
    assert ([l] + rest)[1..] == rest;
  }

  lemma DecorateInner(c: ClientConfig, h: Header)
    ensures Decorate(Inner(c), h) == h && Observed(Inner(c), h) == if c.observer then [h] else []
  {
    assert Inner(c) != [] ==> Inner(c)[1..] == [];
  }

  lemma NoStatic(h: Header, fixed: Header)
    requires |fixed| == 0
    ensures Overlay(h, fixed) == h
  {
    assert fixed.Keys == {};
  }

  lemma DecorateMiddle(c: ClientConfig, h: Header)
    ensures var o := Overlay(h, c.staticHeaders);
      Decorate(Middle(c), h) == o && Observed(Middle(c), h) == if c.observer then [o] else []
  {
    hide Overlay, Decorate, Observed;
    DecorateInner(c, Overlay(h, c.staticHeaders));
    if |c.staticHeaders| > 0 {
      DecorateCons(Static(c.staticHeaders), Inner(c), h);
    } else {
      NoStatic(h, c.staticHeaders);
      assert Middle(c) == Inner(c);
    }
  }

  lemma LayersMiddle(c: ClientConfig)
    ensures Layers(c) == if c.token.Some? then [Bearer(c.token.value)] + Middle(c) else Middle(c)
  {
  }

  /** buildTransport's chain: authorize, then overlay the static headers, then show the observer
      exactly what is sent. */
  lemma DecorateLayers(c: ClientConfig, h: Header)
    ensures Decorate(Layers(c), h) == Overlay(Authorized(c, h), c.staticHeaders)
    ensures Observed(Layers(c), h) == if c.observer then [Decorate(Layers(c), h)] else []
  {
    hide Overlay, Decorate, Observed, Layers, Middle;
    LayersMiddle(c);
    DecorateMiddle(c, Authorized(c, h));
    if c.token.Some? {
      DecorateCons(Bearer(c.token.value), Middle(c), h);
    }
  }

  lemma OverlayValues(h: Header, fixed: Header, k: string)
    ensures Values(Overlay(h, fixed), k) == Overlaid(h, fixed, k)
  {
  }

  /** Which values win at every key, for the whole chain: the bearer token replaces whatever the
      request carried, a non-empty request or bearer value keeps the static ones out, and the
      static values come once, in order, where there is none. */
  lemma Precedence(c: ClientConfig, h: Header, k: string)
    ensures var v, sent := Values(h, k), Values(Decorate(Layers(c), h), k);
      if k == "Authorization" && c.token.Some? then sent == ["Bearer " + c.token.value]
      else if v != [] && v[0] != "" then sent == v
      else sent == v + Values(c.staticHeaders, k)
  {
    hide Overlay, Decorate, Layers;
    DecorateLayers(c, h);
    OverlayValues(Authorized(c, h), c.staticHeaders, k);
  }
}
