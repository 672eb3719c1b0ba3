/** A relation's rewrite rule: the recursive part of the schema, its builders and its wire form. A nil
    pointer or slice is None. */
module Rewrites {
  import opened Basics
  import opened Json

  datatype DirectUserset = DirectUserset

  datatype ObjectRelation = ObjectRelation(object_: string, relation: string)

  datatype TupleToUserset = TupleToUserset(tupleset: ObjectRelation, computedUserset: ObjectRelation)

  /** The Child slice, nil or not. */
  datatype Usersets = NilChild | Child(items: seq<Userset>)

  datatype Difference = Difference(base: Userset, subtract: Userset)

  datatype Userset = Userset(
    direct: Option<DirectUserset>,
    computedUserset: Option<ObjectRelation>,
    tupleToUserset: Option<TupleToUserset>,
    union: Option<Usersets>,
    intersection: Option<Usersets>,
    difference: Option<Difference>)

  const NO_USERSET := Userset(None, None, None, None, None, None)

  // ---------------------------------------------------------------- leaves of the wire form

  const DIRECT: Codec<DirectUserset> := Codec(
    (_: DirectUserset) => EMPTY_OBJECT,
    j => if IsStruct(j) then Value(DirectUserset) else Mismatch,
    x => x,
    (_: DirectUserset) => true)

  function EncodeObjectRelation(r: ObjectRelation): Json {
    JObject(Put(Put(map[], "object", OmitString(r.object_)), "relation", OmitString(r.relation)))
  }

  function DecodeObjectRelation(j: Json): Decoded<ObjectRelation> {
    if !IsStruct(j) then Mismatch
    else
      var o :- GetString(Field(j, "object"));
      var r :- GetString(Field(j, "relation"));
      Value(ObjectRelation(o, r))
  }

  const OBJECT_RELATION: Codec<ObjectRelation> :=
    Codec(EncodeObjectRelation, DecodeObjectRelation, x => x, (_: ObjectRelation) => true)

  function EncodeTupleTo(t: TupleToUserset): Json {
    var fields := Put(map[], "tupleset", Some(EncodeObjectRelation(t.tupleset)));
    JObject(Put(fields, "computedUserset", Some(EncodeObjectRelation(t.computedUserset))))
  }

  function DecodeTupleTo(j: Json): Decoded<TupleToUserset> {
    if !IsStruct(j) then Mismatch
    else
      var t :- DecodeObjectRelation(Field(j, "tupleset"));
      var c :- DecodeObjectRelation(Field(j, "computedUserset"));
      Value(TupleToUserset(t, c))
  }

  const TUPLE_TO: Codec<TupleToUserset> := Codec(EncodeTupleTo, DecodeTupleTo, x => x, (_: TupleToUserset) => true)

  lemma ObjectRelationLaw(r: ObjectRelation)
    ensures LawAt(OBJECT_RELATION, r)
  {
    var j := EncodeObjectRelation(r);
    assert |"object"| != |"relation"|;
    assert Field(j, "object") == Seen(OmitString(r.object_));
    assert Field(j, "relation") == Seen(OmitString(r.relation));
  }

  lemma TupleToLaw(t: TupleToUserset)
    ensures LawAt(TUPLE_TO, t)
  {
    var j := EncodeTupleTo(t);
    ObjectRelationLaw(t.tupleset);
    ObjectRelationLaw(t.computedUserset);
    assert |"tupleset"| != |"computedUserset"|;
    assert Field(j, "tupleset") == EncodeObjectRelation(t.tupleset);
    assert Field(j, "computedUserset") == EncodeObjectRelation(t.computedUserset);
  }

  lemma LeavesLawful()
    ensures Lawful(DIRECT) && Lawful(OBJECT_RELATION) && Lawful(TUPLE_TO)
  {
    forall d ensures LawAt(DIRECT, d) {
      assert d == DirectUserset;
    }
    forall r ensures LawAt(OBJECT_RELATION, r) {
      ObjectRelationLaw(r);
    }
    forall t ensures LawAt(TUPLE_TO, t) {
      TupleToLaw(t);
    }
  }

  /** The wire form of a reference: its strings under their own names, without the empty ones. */
  lemma ObjectRelationWire(r: ObjectRelation)
    ensures var j := EncodeObjectRelation(r);
      && j.JObject? && j.fields.Keys == When(r.object_ != "", "object") + When(r.relation != "", "relation")
      && ("object" in j.fields ==> j.fields["object"] == JString(r.object_))
      && ("relation" in j.fields ==> j.fields["relation"] == JString(r.relation))
  {
    assert |"object"| != |"relation"|;
    PutKeys(map[], "object", OmitString(r.object_));
    PutKeys(Put(map[], "object", OmitString(r.object_)), "relation", OmitString(r.relation));
  }

  lemma TupleToWire(t: TupleToUserset)
    ensures var j := EncodeTupleTo(t);
      && j.JObject? && j.fields.Keys == {"tupleset", "computedUserset"}
      && j.fields["tupleset"] == EncodeObjectRelation(t.tupleset)
      && j.fields["computedUserset"] == EncodeObjectRelation(t.computedUserset)
  {
    assert |"tupleset"| != |"computedUserset"|;
  }

  // ---------------------------------------------------------------- the recursive wire form

  function EncodeUserset(u: Userset): (j: Json)
    ensures j.JObject?
  {
    var leaves := Put(Put(Put(map[],
      "this", OmitPointer(DIRECT, u.direct)),
      "computedUserset", OmitPointer(OBJECT_RELATION, u.computedUserset)),
      "tupleToUserset", OmitPointer(TUPLE_TO, u.tupleToUserset));
    JObject(Put(Put(Put(leaves,
      "union", if u.union.Some? then Some(EncodeUsersets(u.union.value)) else None),
      "intersection", if u.intersection.Some? then Some(EncodeUsersets(u.intersection.value)) else None),
      "difference", if u.difference.Some? then Some(EncodeDifference(u.difference.value)) else None))
  }

  function EncodeUsersets(us: Usersets): Json {
    JObject(Put(map[], "child", Some(
      if us.NilChild? then JNull
      else JArray(seq(|us.items|, i requires 0 <= i < |us.items| => EncodeUserset(us.items[i]))))))
  }

  function EncodeDifference(d: Difference): Json {
    JObject(Put(Put(map[], "base", Some(EncodeUserset(d.base))), "subtract", Some(EncodeUserset(d.subtract))))
  }

  function DecodeUserset(j: Json): Decoded<Userset>
    decreases j, 2
  {
    if !IsStruct(j) then Mismatch
    else
      var direct :- GetPointer(DIRECT, Field(j, "this"));
      var computed :- GetPointer(OBJECT_RELATION, Field(j, "computedUserset"));
      var tupleTo :- GetPointer(TUPLE_TO, Field(j, "tupleToUserset"));
      var union :- if Field(j, "union").JNull? then Value(None) else DecodeUsersets(Field(j, "union"));
      var intersection :- if Field(j, "intersection").JNull? then Value(None)
        else DecodeUsersets(Field(j, "intersection"));
      var difference :- if Field(j, "difference").JNull? then Value(None) else DecodeDifference(Field(j, "difference"));
      Value(Userset(direct, computed, tupleTo, union, intersection, difference))
  }

  /** The pointer to the operands. */
  function DecodeUsersets(j: Json): Decoded<Option<Usersets>>
    decreases j, 1
  {
    if !IsStruct(j) then Mismatch
    else
      var child := Field(j, "child");
      if child.JNull? then Value(Some(NilChild))
      else if !child.JArray? then Mismatch
      else if forall i :: 0 <= i < |child.items| ==> DecodeUserset(child.items[i]).Value? then
        Value(Some(Child(seq(|child.items|, i requires 0 <= i < |child.items| && DecodeUserset(child.items[i]).Value? =>
          DecodeUserset(child.items[i]).v))))
      else Mismatch
  }

  function DecodeDifference(j: Json): Decoded<Option<Difference>>
    decreases j, 1
  {
    if !IsStruct(j) then Mismatch
    else
      var base :- if Field(j, "base").JNull? then Value(NO_USERSET) else DecodeUserset(Field(j, "base"));
      var subtract :- if Field(j, "subtract").JNull? then Value(NO_USERSET) else DecodeUserset(Field(j, "subtract"));
      Value(Some(Difference(base, subtract)))
  }

  lemma Keys()
    ensures |"this"| == 4 && |"union"| == 5 && |"difference"| == 10 && |"intersection"| == 12
    ensures |"tupleToUserset"| == 14 && |"computedUserset"| == 15
  {
  }

  lemma SixMembers(a: Option<Json>, b: Option<Json>, c: Option<Json>, d: Option<Json>, e: Option<Json>, f: Option<Json>)
    ensures var j := JObject(Put(Put(Put(Put(Put(Put(map[], "this", a), "computedUserset", b), "tupleToUserset", c),
              "union", d), "intersection", e), "difference", f));
      && Field(j, "this") == Seen(a) && Field(j, "computedUserset") == Seen(b) && Field(j, "tupleToUserset") == Seen(c)
      && Field(j, "union") == Seen(d) && Field(j, "intersection") == Seen(e) && Field(j, "difference") == Seen(f)
  {
    hide Put;
    Keys();
  }

  /** What each member of an encoded rewrite is. */
  lemma UsersetMembers(u: Userset)
    ensures var j := EncodeUserset(u);
      && Field(j, "this") == Seen(OmitPointer(DIRECT, u.direct))
      && Field(j, "computedUserset") == Seen(OmitPointer(OBJECT_RELATION, u.computedUserset))
      && Field(j, "tupleToUserset") == Seen(OmitPointer(TUPLE_TO, u.tupleToUserset))
      && Field(j, "union") == (if u.union.Some? then EncodeUsersets(u.union.value) else JNull)
      && Field(j, "intersection") == (if u.intersection.Some? then EncodeUsersets(u.intersection.value) else JNull)
      && Field(j, "difference") == (if u.difference.Some? then EncodeDifference(u.difference.value) else JNull)
  {
    hide Put, OmitPointer;
    SixMembers(OmitPointer(DIRECT, u.direct), OmitPointer(OBJECT_RELATION, u.computedUserset),
      OmitPointer(TUPLE_TO, u.tupleToUserset),
      if u.union.Some? then Some(EncodeUsersets(u.union.value)) else None,
      if u.intersection.Some? then Some(EncodeUsersets(u.intersection.value)) else None,
      if u.difference.Some? then Some(EncodeDifference(u.difference.value)) else None);
  }

  lemma SixKeys(a: Option<Json>, b: Option<Json>, c: Option<Json>, d: Option<Json>, e: Option<Json>, f: Option<Json>)
    ensures Put(Put(Put(Put(Put(Put(map[], "this", a), "computedUserset", b), "tupleToUserset", c),
              "union", d), "intersection", e), "difference", f).Keys ==
      When(a.Some?, "this") + When(b.Some?, "computedUserset") + When(c.Some?, "tupleToUserset")
      + When(d.Some?, "union") + When(e.Some?, "intersection") + When(f.Some?, "difference")
  {
    hide Put, When;
    var m1 := Put(map[], "this", a);
    var m2 := Put(m1, "computedUserset", b);
    var m3 := Put(m2, "tupleToUserset", c);
    var m4 := Put(m3, "union", d);
    var m5 := Put(m4, "intersection", e);
    PutKeys(map[], "this", a);
    PutKeys(m1, "computedUserset", b);
    PutKeys(m2, "tupleToUserset", c);
    PutKeys(m3, "union", d);
    PutKeys(m4, "intersection", e);
    PutKeys(m5, "difference", f);
  }

  /** Exactly the branches that are set are written. */
  lemma WrittenBranches(u: Userset)
    ensures EncodeUserset(u).fields.Keys ==
      When(u.direct.Some?, "this") + When(u.computedUserset.Some?, "computedUserset")
      + When(u.tupleToUserset.Some?, "tupleToUserset") + When(u.union.Some?, "union")
      + When(u.intersection.Some?, "intersection") + When(u.difference.Some?, "difference")
  {
    hide Put;
    SixKeys(OmitPointer(DIRECT, u.direct), OmitPointer(OBJECT_RELATION, u.computedUserset),
      OmitPointer(TUPLE_TO, u.tupleToUserset),
      if u.union.Some? then Some(EncodeUsersets(u.union.value)) else None,
      if u.intersection.Some? then Some(EncodeUsersets(u.intersection.value)) else None,
      if u.difference.Some? then Some(EncodeDifference(u.difference.value)) else None);
  }

  /** The wire form of a rewrite: each branch that is set under its own name, and nothing else. */
  lemma UsersetWire(u: Userset)
    ensures EncodeUserset(u).JObject?
    ensures var f := EncodeUserset(u).fields;
      && f.Keys == When(u.direct.Some?, "this") + When(u.computedUserset.Some?, "computedUserset")
                   + When(u.tupleToUserset.Some?, "tupleToUserset") + When(u.union.Some?, "union")
                   + When(u.intersection.Some?, "intersection") + When(u.difference.Some?, "difference")
      && (u.direct.Some? ==> "this" in f && f["this"] == JObject(map[]))
      && (u.computedUserset.Some? ==>
            "computedUserset" in f && f["computedUserset"] == EncodeObjectRelation(u.computedUserset.value))
      && (u.tupleToUserset.Some? ==>
            "tupleToUserset" in f && f["tupleToUserset"] == EncodeTupleTo(u.tupleToUserset.value))
      && (u.union.Some? ==> "union" in f && f["union"] == EncodeUsersets(u.union.value))
      && (u.intersection.Some? ==> "intersection" in f && f["intersection"] == EncodeUsersets(u.intersection.value))
      && (u.difference.Some? ==> "difference" in f && f["difference"] == EncodeDifference(u.difference.value))
  {
    WrittenBranches(u);
    UsersetMembers(u);
    hide EncodeUserset;
    assert EncodeUserset(u).JObject?;
  }

  /** The wire form of operands: all of them in order, or null for a nil slice. */
  lemma UsersetsWire(us: Usersets)
    ensures var j := EncodeUsersets(us);
      && j.JObject? && j.fields.Keys == {"child"}
      && (us.NilChild? ==> j.fields["child"] == JNull)
      && (us.Child? ==>
            && j.fields["child"].JArray? && |j.fields["child"].items| == |us.items|
            && forall i :: 0 <= i < |us.items| ==> j.fields["child"].items[i] == EncodeUserset(us.items[i]))
  {
  }

  lemma DifferenceWire(d: Difference)
    ensures var j := EncodeDifference(d);
      && j.JObject? && j.fields.Keys == {"base", "subtract"}
      && j.fields["base"] == EncodeUserset(d.base) && j.fields["subtract"] == EncodeUserset(d.subtract)
  {
    assert |"base"| != |"subtract"|;
  }

  /** Every rewrite, however deeply nested, comes back from the wire exactly as it was. */
  lemma {:induction false} UsersetRoundTrip(u: Userset)
    ensures DecodeUserset(EncodeUserset(u)) == Value(u)
    decreases u
  {
    UsersetMembers(u);
    LeavesLawful();
    PointerLaw(DIRECT, u.direct);
    PointerLaw(OBJECT_RELATION, u.computedUserset);
    PointerLaw(TUPLE_TO, u.tupleToUserset);
    if u.union.Some? {
      UsersetsRoundTrip(u.union.value);
    }
    if u.intersection.Some? {
      UsersetsRoundTrip(u.intersection.value);
    }
    if u.difference.Some? {
      DifferenceRoundTrip(u.difference.value);
    }
  }

  lemma {:induction false} UsersetsRoundTrip(us: Usersets)
    ensures DecodeUsersets(EncodeUsersets(us)) == Value(Some(us))
    decreases us
  {
    var j := EncodeUsersets(us);
    if us.Child? {
      forall i | 0 <= i < |us.items| ensures DecodeUserset(EncodeUserset(us.items[i])) == Value(us.items[i]) {
        UsersetRoundTrip(us.items[i]);
      }
      assert Field(j, "child").JArray?;
      assert DecodeUsersets(j).v.value.items == us.items;
    }
  }

  lemma {:induction false} DifferenceRoundTrip(d: Difference)
    ensures DecodeDifference(EncodeDifference(d)) == Value(Some(d))
    decreases d
  {
    UsersetRoundTrip(d.base);
    UsersetRoundTrip(d.subtract);
    var j := EncodeDifference(d);
    assert Field(j, "base") == EncodeUserset(d.base);
    assert Field(j, "subtract") == EncodeUserset(d.subtract);
  }

  const USERSET: Codec<Userset> := Codec(EncodeUserset, DecodeUserset, x => x, (_: Userset) => true)

  lemma UsersetLawful()
    ensures Lawful(USERSET)
  {
    forall u ensures LawAt(USERSET, u) {
      UsersetRoundTrip(u);
    }
  }

  // ---------------------------------------------------------------- builders

  function This(): Userset {
    NO_USERSET.(direct := Some(DirectUserset))
  }

  function ComputedUserset(relation: string): Userset {
    NO_USERSET.(computedUserset := Some(ObjectRelation("", relation)))
  }

  function TupleTo(tupleset: string, computedRelation: string): Userset {
    NO_USERSET.(tupleToUserset := Some(TupleToUserset(ObjectRelation("", tupleset), ObjectRelation("",
      computedRelation))))
  }

  /** The variadic builders; no arguments give a nil slice. */
  function Union(children: Usersets): Userset {
    NO_USERSET.(union := Some(children))
  }

  function Intersection(children: Usersets): Userset {
    NO_USERSET.(intersection := Some(children))
  }

  function Exclusion(base: Userset, subtract: Userset): Userset {
    NO_USERSET.(difference := Some(Difference(base, subtract)))
  }

  /** An expression made of builder calls. */
  datatype Expr =
    | CallThis
    | CallComputedUserset(relation: string)
    | CallTupleTo(tupleset: string, computed: string)
    | CallUnion(args: Args)
    | CallIntersection(args: Args)
    | CallExclusion(base: Expr, subtract: Expr)

  datatype Args = NoArgs | Args(items: seq<Expr>)

  function Build(e: Expr): Userset {
    match e
    case CallThis => This()
    case CallComputedUserset(r) => ComputedUserset(r)
    case CallTupleTo(t, c) => TupleTo(t, c)
    case CallUnion(args) => Union(BuildArgs(args))
    case CallIntersection(args) => Intersection(BuildArgs(args))
    case CallExclusion(b, s) => Exclusion(Build(b), Build(s))
  }

  function BuildArgs(args: Args): Usersets {
    if args.NoArgs? then NilChild else Child(seq(|args.items|,
      i requires 0 <= i < |args.items| => Build(args.items[i])))
  }

  function One<T>(p: Option<T>): nat {
    if p.Some? then 1 else 0
  }

  function Branches(u: Userset): nat {
    One(u.direct) + One(u.computedUserset) + One(u.tupleToUserset) + One(u.union) + One(u.intersection)
      + One(u.difference)
  }

  /** The rewrites directly below. */
  function Below(u: Userset): (below: seq<Userset>)
    ensures forall v :: v in below ==> v < u
  {
    (if u.union.Some? && u.union.value.Child? then u.union.value.items else [])
    + (if u.intersection.Some? && u.intersection.value.Child? then u.intersection.value.items else [])
    + (if u.difference.Some? then [u.difference.value.base, u.difference.value.subtract] else [])
  }

  /** Exactly one branch is set, here and in every rewrite below. */
  predicate OneBranch(u: Userset) {
    Branches(u) == 1 && forall v :: v in Below(u) ==> OneBranch(v)
  }

  /** No reference names an object, here or below. */
  predicate NoObject(u: Userset) {
    && (u.computedUserset.Some? ==> u.computedUserset.value.object_ == "")
    && (u.tupleToUserset.Some? ==>
          u.tupleToUserset.value.tupleset.object_ == "" && u.tupleToUserset.value.computedUserset.object_ == "")
    && forall v :: v in Below(u) ==> NoObject(v)
  }

  /** The builder calls that a rewrite reads as. */
  function Unbuild(u: Userset): Expr {
    if u.direct.Some? then CallThis
    else if u.computedUserset.Some? then CallComputedUserset(u.computedUserset.value.relation)
    else if u.tupleToUserset.Some? then
      CallTupleTo(u.tupleToUserset.value.tupleset.relation, u.tupleToUserset.value.computedUserset.relation)
    else if u.union.Some? then CallUnion(UnbuildArgs(u.union.value))
    else if u.intersection.Some? then CallIntersection(UnbuildArgs(u.intersection.value))
    else if u.difference.Some? then CallExclusion(Unbuild(u.difference.value.base),
      Unbuild(u.difference.value.subtract))
    else CallThis
  }

  function UnbuildArgs(us: Usersets): Args {
    if us.NilChild? then NoArgs else Args(seq(|us.items|, i requires 0 <= i < |us.items| => Unbuild(us.items[i])))
  }

  /** What the builders make has exactly one branch set at every depth and names no object; and different
      expressions make different rewrites. */
  lemma {:induction false} BuildMeans(e: Expr)
    ensures OneBranch(Build(e)) && NoObject(Build(e)) && Unbuild(Build(e)) == e
    decreases e
  {
    match e
    case CallUnion(args) => ArgsMean(args);
    case CallIntersection(args) => ArgsMean(args);
    case CallExclusion(b, s) =>
      BuildMeans(b);
      BuildMeans(s);
    case _ =>
  }

  lemma {:induction false} ArgsMean(args: Args)
    ensures UnbuildArgs(BuildArgs(args)) == args
    ensures args.Args? ==> forall v :: v in BuildArgs(args).items ==> OneBranch(v) && NoObject(v)
    decreases args
  {
    if args.Args? {
      forall i | 0 <= i < |args.items|
        ensures OneBranch(Build(args.items[i])) && NoObject(Build(args.items[i])) &&
          Unbuild(Build(args.items[i])) == args.items[i]
      {
        BuildMeans(args.items[i]);
      }
      assert UnbuildArgs(BuildArgs(args)).items == args.items;
    }
  }

  /** The builders make every such rewrite. */
  lemma {:induction false} EveryRewriteIsBuilt(u: Userset)
    requires OneBranch(u) && NoObject(u)
    ensures Build(Unbuild(u)) == u
    decreases u
  {
    forall v | v in Below(u) ensures Build(Unbuild(v)) == v {
      EveryRewriteIsBuilt(v);
    }
    if u.union.Some? && u.union.value.Child? {
      assert forall v :: v in u.union.value.items ==> v in Below(u);
      assert BuildArgs(UnbuildArgs(u.union.value)).items == u.union.value.items;
    } else if u.intersection.Some? && u.intersection.value.Child? {
      assert forall v :: v in u.intersection.value.items ==> v in Below(u);
      assert BuildArgs(UnbuildArgs(u.intersection.value)).items == u.intersection.value.items;
    } else if u.difference.Some? {
      assert u.difference.value.base in Below(u) && u.difference.value.subtract in Below(u);
    } else if u.direct.Some? {
      assert u.direct.value == DirectUserset;
    }
  }

  /** What each builder's call is on the wire. */
  lemma ThisWire()
    ensures EncodeUserset(This()).fields == map["this" := JObject(map[])]
  {
    hide EncodeUserset;
    UsersetWire(This());
  }

  lemma ComputedUsersetWire(r: string)
    requires r != ""
    ensures EncodeUserset(ComputedUserset(r)).fields == map["computedUserset" := JObject(map["relation" := JString(r)])]
  {
    hide EncodeUserset, EncodeObjectRelation;
    ReferenceTo(r);
    UsersetWire(ComputedUserset(r));
  }

  lemma TupleToBuilderWire(t: string, r: string)
    requires t != "" && r != ""
    ensures var f := EncodeUserset(TupleTo(t, r)).fields;
      && f.Keys == {"tupleToUserset"} && f["tupleToUserset"].JObject?
      && f["tupleToUserset"].fields == map["tupleset" := JObject(map["relation" := JString(t)]),
                                           "computedUserset" := JObject(map["relation" := JString(r)])]
  {
    hide EncodeUserset, EncodeObjectRelation, EncodeTupleTo;
    ReferenceTo(t);
    ReferenceTo(r);
    UsersetWire(TupleTo(t, r));
    TupleToWire(TupleToUserset(ObjectRelation("", t), ObjectRelation("", r)));
  }

  lemma UnionWire(us: Usersets)
    ensures EncodeUserset(Union(us)).fields == map["union" := EncodeUsersets(us)]
  {
    hide EncodeUserset, EncodeUsersets;
    UsersetWire(Union(us));
  }

  lemma IntersectionWire(us: Usersets)
    ensures EncodeUserset(Intersection(us)).fields == map["intersection" := EncodeUsersets(us)]
  {
    hide EncodeUserset, EncodeUsersets;
    UsersetWire(Intersection(us));
  }

  lemma ExclusionWire(base: Userset, subtract: Userset)
    ensures var f := EncodeUserset(Exclusion(base, subtract)).fields;
      && f.Keys == {"difference"} && f["difference"].JObject?
      && f["difference"].fields == map["base" := EncodeUserset(base), "subtract" := EncodeUserset(subtract)]
  {
    hide EncodeUserset, EncodeDifference;
    UsersetWire(Exclusion(base, subtract));
    DifferenceWire(Difference(base, subtract));
  }

  lemma ReferenceTo(r: string)
    requires r != ""
    ensures EncodeObjectRelation(ObjectRelation("", r)) == JObject(map["relation" := JString(r)])
  {
  }

  /** Over the wire: a tree made by the builders still reads as the same calls, with one branch set at
      every depth, and no two expressions share a wire form. */
  lemma BuiltRoundTrip(e: Expr, f: Expr)
    ensures var back := DecodeUserset(EncodeUserset(Build(e)));
      back.Value? && OneBranch(back.v) && Unbuild(back.v) == e
    ensures EncodeUserset(Build(e)) == EncodeUserset(Build(f)) ==> e == f
  {
    UsersetRoundTrip(Build(e));
    UsersetRoundTrip(Build(f));
    BuildMeans(e);
    BuildMeans(f);
  }
}
