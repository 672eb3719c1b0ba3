/** The authorization model: every type of the schema, which members it writes (omitempty per struct
    tag), how it is read back, and what comes back. A nil pointer, slice or map is None. */
module ModelCodec {
  import opened Basics
  import opened Json
  import opened Rewrites

  datatype Wildcard = Wildcard

  datatype SourceInfo = SourceInfo(file: string)

  datatype RelationReference = RelationReference(typ: string, relation: string, wildcard: Option<Wildcard>,
      condition: string)

  datatype RelationMetadata = RelationMetadata(
    userTypes: Option<seq<RelationReference>>, moduleName: string, sourceInfo: Option<SourceInfo>)

  datatype Metadata = Metadata(
    relations: Option<map<string, RelationMetadata>>, moduleName: string, sourceInfo: Option<SourceInfo>)

  /** A parameter type; its element types are nil or a list. */
  datatype ParamType = ParamType(typeName: string, generics: Generics)

  datatype Generics = NilGenerics | Generics(items: seq<ParamType>)

  datatype ConditionMetadata = ConditionMetadata(moduleName: string, sourceInfo: Option<SourceInfo>)

  datatype Condition = Condition(
    name: string, expression: string, parameters: Option<map<string, ParamType>>, metadata: Option<ConditionMetadata>)

  datatype TypeDefinition = TypeDefinition(
    typ: string, relations: Option<map<string, Userset>>, metadata: Option<Metadata>)

  datatype AuthorizationModel = AuthorizationModel(
    id: string, schemaVersion: string, typeDefinitions: Option<seq<TypeDefinition>>, conditions: Option<map<string,
      Condition>>)

  /** The object with up to four members; a struct with fewer leaves the last ones None. */
  function Object4(k0: string, v0: Option<Json>, k1: string, v1: Option<Json>,
                   k2: string, v2: Option<Json>, k3: string, v3: Option<Json>): (j: Json)
    ensures j.JObject?
  {
    JObject(Put(Put(Put(Put(map[], k0, v0), k1, v1), k2, v2), k3, v3))
  }

  lemma Members4(k0: string, v0: Option<Json>, k1: string, v1: Option<Json>,
                 k2: string, v2: Option<Json>, k3: string, v3: Option<Json>)
    requires k0 != k1 && k0 != k2 && k0 != k3 && k1 != k2 && k1 != k3 && k2 != k3
    ensures var j := Object4(k0, v0, k1, v1, k2, v2, k3, v3);
      && Field(j, k0) == Seen(v0) && Field(j, k1) == Seen(v1) && Field(j, k2) == Seen(v2) && Field(j, k3) == Seen(v3)
  {
    hide Put;
  }

  lemma Keys4(k0: string, v0: Option<Json>, k1: string, v1: Option<Json>,
              k2: string, v2: Option<Json>, k3: string, v3: Option<Json>)
    ensures Object4(k0, v0, k1, v1, k2, v2, k3, v3).fields.Keys ==
      When(v0.Some?, k0) + When(v1.Some?, k1) + When(v2.Some?, k2) + When(v3.Some?, k3)
  {
    hide Put, When;
    var m1 := Put(map[], k0, v0);
    var m2 := Put(m1, k1, v1);
    PutKeys(map[], k0, v0);
    PutKeys(m1, k1, v1);
    PutKeys(m2, k2, v2);
    PutKeys(Put(m2, k2, v2), k3, v3);
  }

  /** A member written whether or not it is empty. */
  function Str(s: string): Option<Json> {
    Some(JString(s))
  }

  // ---------------------------------------------------------------- leaves

  const WILDCARD: Codec<Wildcard> := Codec(
    (_: Wildcard) => EMPTY_OBJECT,
    j => if IsStruct(j) then Value(Wildcard) else Mismatch,
    x => x,
    (_: Wildcard) => true)

  function EncodeSourceInfo(i: SourceInfo): Json {
    JObject(Put(map[], "file", OmitString(i.file)))
  }

  function DecodeSourceInfo(j: Json): Decoded<SourceInfo> {
    if !IsStruct(j) then Mismatch
    else
      var f :- GetString(Field(j, "file"));
      Value(SourceInfo(f))
  }

  const SOURCE_INFO: Codec<SourceInfo> := Codec(EncodeSourceInfo, DecodeSourceInfo, x => x, (_: SourceInfo) => true)

  function EncodeReference(r: RelationReference): Json {
    Object4("type", Str(r.typ), "relation", OmitString(r.relation),
      "wildcard", OmitPointer(WILDCARD, r.wildcard), "condition", OmitString(r.condition))
  }

  function DecodeReference(j: Json): Decoded<RelationReference> {
    if !IsStruct(j) then Mismatch
    else
      var t :- GetString(Field(j, "type"));
      var r :- GetString(Field(j, "relation"));
      var w :- GetPointer(WILDCARD, Field(j, "wildcard"));
      var c :- GetString(Field(j, "condition"));
      Value(RelationReference(t, r, w, c))
  }

  const REFERENCE: Codec<RelationReference> := Codec(EncodeReference, DecodeReference, x => x,
      (_: RelationReference) => true)

  lemma SourceInfoLawful()
    ensures Lawful(SOURCE_INFO)
  {
    forall i ensures LawAt(SOURCE_INFO, i) {
      assert Field(EncodeSourceInfo(i), "file") == Seen(OmitString(i.file));
    }
  }

  lemma WildcardLawful()
    ensures Lawful(WILDCARD)
  {
    forall w ensures LawAt(WILDCARD, w) {
      assert w == Wildcard;
    }
  }

  lemma ReferenceLawful()
    ensures Lawful(REFERENCE)
  {
    hide Object4, OmitPointer, OmitSlice, OmitMap, GetSlice, GetMap, NormMap, CanonicalMap;
    WildcardLawful();
    forall r ensures LawAt(REFERENCE, r) {
      assert "relation"[0] != "wildcard"[0];
      assert |"type"| == 4 && |"relation"| == |"wildcard"| == 8 && |"condition"| == 9;
      Members4("type", Str(r.typ), "relation", OmitString(r.relation),
        "wildcard", OmitPointer(WILDCARD, r.wildcard), "condition", OmitString(r.condition));
      PointerLaw(WILDCARD, r.wildcard);
    }
  }

  // ---------------------------------------------------------------- relation metadata

  function EncodeRelationMetadata(m: RelationMetadata): Json {
    Object4("directly_related_user_types", OmitSlice(REFERENCE, m.userTypes), "module", OmitString(m.moduleName),
      "source_info", OmitPointer(SOURCE_INFO, m.sourceInfo), "", None)
  }

  function DecodeRelationMetadata(j: Json): Decoded<RelationMetadata> {
    if !IsStruct(j) then Mismatch
    else
      var u :- GetSlice(REFERENCE, Field(j, "directly_related_user_types"));
      var m :- GetString(Field(j, "module"));
      var s :- GetPointer(SOURCE_INFO, Field(j, "source_info"));
      Value(RelationMetadata(u, m, s))
  }

  function NormRelationMetadata(m: RelationMetadata): RelationMetadata {
    RelationMetadata(NormSlice(REFERENCE, NilIfEmpty(m.userTypes)), m.moduleName, NormPointer(SOURCE_INFO,
      m.sourceInfo))
  }

  predicate CanonicalRelationMetadata(m: RelationMetadata) {
    m.userTypes != Some([])
  }

  const RELATION_METADATA: Codec<RelationMetadata> :=
    Codec(EncodeRelationMetadata, DecodeRelationMetadata, NormRelationMetadata, CanonicalRelationMetadata)

  lemma RelationMetadataLawful()
    ensures Lawful(RELATION_METADATA)
  {
    hide Object4, OmitPointer, OmitSlice, OmitMap, GetSlice, GetMap, NormMap, CanonicalMap;
    SourceInfoLawful();
    ReferenceLawful();
    forall m ensures LawAt(RELATION_METADATA, m) {
      assert |"directly_related_user_types"| == 27 && |"module"| == 6 && |"source_info"| == 11;
      Members4("directly_related_user_types", OmitSlice(REFERENCE, m.userTypes), "module", OmitString(m.moduleName),
        "source_info", OmitPointer(SOURCE_INFO, m.sourceInfo), "", None);
      OmitSliceLaw(REFERENCE, m.userTypes);
      PointerLaw(SOURCE_INFO, m.sourceInfo);
    }
  }

  function EncodeMetadata(m: Metadata): Json {
    Object4("relations", OmitMap(RELATION_METADATA, m.relations), "module", OmitString(m.moduleName),
      "source_info", OmitPointer(SOURCE_INFO, m.sourceInfo), "", None)
  }

  function DecodeMetadata(j: Json): Decoded<Metadata> {
    if !IsStruct(j) then Mismatch
    else
      var r :- GetMap(RELATION_METADATA, Field(j, "relations"));
      var m :- GetString(Field(j, "module"));
      var s :- GetPointer(SOURCE_INFO, Field(j, "source_info"));
      Value(Metadata(r, m, s))
  }

  function NormMetadata(m: Metadata): Metadata {
    Metadata(NormMap(RELATION_METADATA, m.relations), m.moduleName, NormPointer(SOURCE_INFO, m.sourceInfo))
  }

  predicate CanonicalMetadata(m: Metadata) {
    CanonicalMap(RELATION_METADATA, m.relations)
  }

  const METADATA: Codec<Metadata> := Codec(EncodeMetadata, DecodeMetadata, NormMetadata, CanonicalMetadata)

  lemma MetadataLawful()
    ensures Lawful(METADATA)
  {
    hide Object4, OmitPointer, OmitSlice, OmitMap, GetSlice, GetMap, NormMap, CanonicalMap;
    SourceInfoLawful();
    RelationMetadataLawful();
    forall m ensures LawAt(METADATA, m) {
      assert |"relations"| == 9 && |"module"| == 6 && |"source_info"| == 11;
      Members4("relations", OmitMap(RELATION_METADATA, m.relations), "module", OmitString(m.moduleName),
        "source_info", OmitPointer(SOURCE_INFO, m.sourceInfo), "", None);
      OmitMapLaw(RELATION_METADATA, m.relations);
      PointerLaw(SOURCE_INFO, m.sourceInfo);
    }
  }

  // ---------------------------------------------------------------- conditions

  function EncodeParam(p: ParamType): Json
    decreases p
  {
    Object4("type_name", Str(p.typeName), "generic_types",
      if p.generics.NilGenerics? || p.generics.items == [] then None else Some(JArray(EncodeParams(p.generics.items))),
      "", None, "-", None)
  }

  function EncodeParams(xs: seq<ParamType>): seq<Json>
    decreases xs
  {
    seq(|xs|, i requires 0 <= i < |xs| => EncodeParam(xs[i]))
  }

  function DecodeParam(j: Json): Decoded<ParamType>
    decreases j
  {
    if !IsStruct(j) then Mismatch
    else
      var t :- GetString(Field(j, "type_name"));
      var g := Field(j, "generic_types");
      if g.JNull? then Value(ParamType(t, NilGenerics))
      else if !g.JArray? then Mismatch
      else
        var items :- DecodeParams(g.items);
        Value(ParamType(t, Generics(items)))
  }

  function DecodeParams(js: seq<Json>): Decoded<seq<ParamType>>
    decreases js
  {
    if forall i :: 0 <= i < |js| ==> DecodeParam(js[i]).Value? then
      Value(seq(|js|, i requires 0 <= i < |js| && DecodeParam(js[i]).Value? => DecodeParam(js[i]).v))
    else Mismatch
  }

  function NormParam(p: ParamType): ParamType
    decreases p
  {
    ParamType(p.typeName,
      if p.generics.NilGenerics? || p.generics.items == [] then NilGenerics else Generics(NormParams(p.generics.items)))
  }

  function NormParams(xs: seq<ParamType>): (ys: seq<ParamType>)
    ensures |ys| == |xs|
    decreases xs
  {
    seq(|xs|, i requires 0 <= i < |xs| => NormParam(xs[i]))
  }

  predicate CanonicalParam(p: ParamType)
    decreases p
  {
    p.generics.Generics? ==> p.generics.items != [] && CanonicalParams(p.generics.items)
  }

  predicate CanonicalParams(xs: seq<ParamType>)
    decreases xs
  {
    forall i :: 0 <= i < |xs| ==> CanonicalParam(xs[i])
  }

  const PARAM: Codec<ParamType> := Codec(EncodeParam, DecodeParam, NormParam, CanonicalParam)

  lemma {:induction false} ParamsLaw(xs: seq<ParamType>)
    ensures DecodeParams(EncodeParams(xs)) == Value(NormParams(xs))
    ensures EncodeParams(NormParams(xs)) == EncodeParams(xs)
    ensures CanonicalParams(xs) <==> NormParams(xs) == xs
    decreases xs
  {
    hide EncodeParam, DecodeParam, NormParam, CanonicalParam;
    forall i | 0 <= i < |xs|
      ensures LawAt(PARAM, xs[i])
    {
      ParamLaw(xs[i]);
    }
    assert DecodeParams(EncodeParams(xs)).v == NormParams(xs);
    if CanonicalParams(xs) {
      assert NormParams(xs) == xs;
    } else {
      var i :| 0 <= i < |xs| && !CanonicalParam(xs[i]);
      assert NormParams(xs)[i] != xs[i];
    }
  }

  lemma ParamMembers(p: ParamType)
    ensures var j := EncodeParam(p);
      && Field(j, "type_name") == JString(p.typeName)
      && Field(j, "generic_types") ==
         if p.generics.NilGenerics? || p.generics.items == [] then JNull else JArray(EncodeParams(p.generics.items))
  {
    assert |"type_name"| == 9 && |"generic_types"| == 13 && |"-"| == 1;
    hide EncodeParams;
    Members4("type_name", Str(p.typeName), "generic_types",
      if p.generics.NilGenerics? || p.generics.items == [] then None else Some(JArray(EncodeParams(p.generics.items))),
      "", None, "-", None);
  }

  lemma {:induction false} ParamLaw(p: ParamType)
    ensures LawAt(PARAM, p)
    decreases p
  {
    hide EncodeParams, DecodeParams, NormParams, CanonicalParams;
    ParamMembers(p);
    if p.generics.Generics? && p.generics.items != [] {
      ParamsLaw(p.generics.items);
    }
  }

  lemma ParamLawful()
    ensures Lawful(PARAM)
  {
    forall p ensures LawAt(PARAM, p) {
      ParamLaw(p);
    }
  }

  function EncodeConditionMetadata(m: ConditionMetadata): Json {
    Object4("module", OmitString(m.moduleName), "source_info", OmitPointer(SOURCE_INFO, m.sourceInfo), "", None,
      "-", None)
  }

  function DecodeConditionMetadata(j: Json): Decoded<ConditionMetadata> {
    if !IsStruct(j) then Mismatch
    else
      var m :- GetString(Field(j, "module"));
      var s :- GetPointer(SOURCE_INFO, Field(j, "source_info"));
      Value(ConditionMetadata(m, s))
  }

  const CONDITION_METADATA: Codec<ConditionMetadata> :=
    Codec(EncodeConditionMetadata, DecodeConditionMetadata, x => x, (_: ConditionMetadata) => true)

  lemma ConditionMetadataLawful()
    ensures Lawful(CONDITION_METADATA)
  {
    hide Object4, OmitPointer, OmitSlice, OmitMap, GetSlice, GetMap, NormMap, CanonicalMap;
    SourceInfoLawful();
    forall m ensures LawAt(CONDITION_METADATA, m) {
      assert |"module"| == 6 && |"source_info"| == 11 && |"-"| == 1;
      Members4("module", OmitString(m.moduleName), "source_info", OmitPointer(SOURCE_INFO, m.sourceInfo), "", None,
        "-", None);
      PointerLaw(SOURCE_INFO, m.sourceInfo);
    }
  }

  function EncodeCondition(c: Condition): Json {
    Object4("name", Str(c.name), "expression", Str(c.expression), "parameters", OmitMap(PARAM, c.parameters),
      "metadata", OmitPointer(CONDITION_METADATA, c.metadata))
  }

  function DecodeCondition(j: Json): Decoded<Condition> {
    if !IsStruct(j) then Mismatch
    else
      var n :- GetString(Field(j, "name"));
      var e :- GetString(Field(j, "expression"));
      var p :- GetMap(PARAM, Field(j, "parameters"));
      var m :- GetPointer(CONDITION_METADATA, Field(j, "metadata"));
      Value(Condition(n, e, p, m))
  }

  function NormCondition(c: Condition): Condition {
    Condition(c.name, c.expression, NormMap(PARAM, c.parameters), NormPointer(CONDITION_METADATA, c.metadata))
  }

  predicate CanonicalCondition(c: Condition) {
    CanonicalMap(PARAM, c.parameters)
  }

  const CONDITION: Codec<Condition> := Codec(EncodeCondition, DecodeCondition, NormCondition, CanonicalCondition)

  lemma ConditionLawful()
    ensures Lawful(CONDITION)
  {
    hide Object4, OmitPointer, OmitSlice, OmitMap, GetSlice, GetMap, NormMap, CanonicalMap;
    ParamLawful();
    ConditionMetadataLawful();
    forall c ensures LawAt(CONDITION, c) {
      assert "expression"[0] != "parameters"[0];
      assert |"name"| == 4 && |"expression"| == |"parameters"| == 10 && |"metadata"| == 8;
      Members4("name", Str(c.name), "expression", Str(c.expression), "parameters", OmitMap(PARAM, c.parameters),
        "metadata", OmitPointer(CONDITION_METADATA, c.metadata));
      OmitMapLaw(PARAM, c.parameters);
      PointerLaw(CONDITION_METADATA, c.metadata);
    }
  }

  // ---------------------------------------------------------------- type definitions and the model

  function EncodeTypeDefinition(t: TypeDefinition): Json {
    Object4("type", Str(t.typ), "relations", OmitMap(USERSET, t.relations), "metadata", OmitPointer(METADATA,
      t.metadata), "", None)
  }

  function DecodeTypeDefinition(j: Json): Decoded<TypeDefinition> {
    if !IsStruct(j) then Mismatch
    else
      var t :- GetString(Field(j, "type"));
      var r :- GetMap(USERSET, Field(j, "relations"));
      var m :- GetPointer(METADATA, Field(j, "metadata"));
      Value(TypeDefinition(t, r, m))
  }

  function NormTypeDefinition(t: TypeDefinition): TypeDefinition {
    TypeDefinition(t.typ, NormMap(USERSET, t.relations), NormPointer(METADATA, t.metadata))
  }

  predicate CanonicalTypeDefinition(t: TypeDefinition) {
    CanonicalMap(USERSET, t.relations) && CanonicalPointer(METADATA, t.metadata)
  }

  const TYPE_DEFINITION: Codec<TypeDefinition> :=
    Codec(EncodeTypeDefinition, DecodeTypeDefinition, NormTypeDefinition, CanonicalTypeDefinition)

  lemma TypeDefinitionLawful()
    ensures Lawful(TYPE_DEFINITION)
  {
    hide Object4, OmitPointer, OmitSlice, OmitMap, GetSlice, GetMap, NormMap, CanonicalMap;
    UsersetLawful();
    MetadataLawful();
    forall t ensures LawAt(TYPE_DEFINITION, t) {
      assert |"type"| == 4 && |"relations"| == 9 && |"metadata"| == 8;
      Members4("type", Str(t.typ), "relations", OmitMap(USERSET, t.relations), "metadata", OmitPointer(METADATA,
        t.metadata), "", None);
      OmitMapLaw(USERSET, t.relations);
      PointerLaw(METADATA, t.metadata);
    }
  }

  function EncodeModel(m: AuthorizationModel): Json {
    Object4("id", Str(m.id), "schema_version", Str(m.schemaVersion),
      "type_definitions", Some(EncodeSlice(TYPE_DEFINITION, m.typeDefinitions)),
      "conditions", OmitMap(CONDITION, m.conditions))
  }

  function DecodeModel(j: Json): Decoded<AuthorizationModel> {
    if !IsStruct(j) then Mismatch
    else
      var i :- GetString(Field(j, "id"));
      var s :- GetString(Field(j, "schema_version"));
      var t :- GetSlice(TYPE_DEFINITION, Field(j, "type_definitions"));
      var c :- GetMap(CONDITION, Field(j, "conditions"));
      Value(AuthorizationModel(i, s, t, c))
  }

  /** The model with nil in place of every empty collection that omitempty drops. */
  function NormModel(m: AuthorizationModel): AuthorizationModel {
    AuthorizationModel(m.id, m.schemaVersion, NormSlice(TYPE_DEFINITION, m.typeDefinitions), NormMap(CONDITION,
      m.conditions))
  }

  /** No collection that omitempty drops is empty without being nil, at any depth. */
  predicate CanonicalModel(m: AuthorizationModel) {
    CanonicalSlice(TYPE_DEFINITION, m.typeDefinitions) && CanonicalMap(CONDITION, m.conditions)
  }

  const MODEL: Codec<AuthorizationModel> := Codec(EncodeModel, DecodeModel, NormModel, CanonicalModel)

  lemma ModelLawful()
    ensures Lawful(MODEL)
  {
    hide Object4, OmitPointer, OmitSlice, OmitMap, GetSlice, GetMap, NormMap, CanonicalMap;
    TypeDefinitionLawful();
    ConditionLawful();
    forall m ensures LawAt(MODEL, m) {
      assert |"id"| == 2 && |"schema_version"| == 14 && |"type_definitions"| == 16 && |"conditions"| == 10;
      Members4("id", Str(m.id), "schema_version", Str(m.schemaVersion),
        "type_definitions", Some(EncodeSlice(TYPE_DEFINITION, m.typeDefinitions)),
        "conditions", OmitMap(CONDITION, m.conditions));
      SliceLaw(TYPE_DEFINITION, m.typeDefinitions);
      OmitMapLaw(CONDITION, m.conditions);
    }
  }

  /** Any model written and read back is itself up to nil for empty, exactly itself when it is
      canonical, and unchanged by any further round; and two models have the same wire form exactly when
      they differ in nil for empty only. */
  lemma ModelRoundTrip(m: AuthorizationModel, m': AuthorizationModel)
    ensures DecodeModel(EncodeModel(m)) == Value(NormModel(m))
    ensures DecodeModel(EncodeModel(m)) == Value(m) <==> CanonicalModel(m)
    ensures DecodeModel(EncodeModel(NormModel(m))) == Value(NormModel(m))
    ensures EncodeModel(m) == EncodeModel(m') <==> NormModel(m) == NormModel(m')
  {
    ModelLawful();
    CodecMeans(MODEL, m, m');
    CodecMeans(MODEL, NormModel(m), m);
  }

  // ---------------------------------------------------------------- the wire form, member by member

  predicate NonEmpty<T>(m: Option<map<string, T>>) {
    m.Some? && m.value != map[]
  }

  /** A member is there exactly when it is written, with the value written. */
  ghost predicate Carries(j: Json, key: string, value: Option<Json>) {
    && j.JObject?
    && (value.Some? ==> key in j.fields && j.fields[key] == value.value)
    && (value.None? ==> key !in j.fields)
  }

  lemma Wire4(k0: string, v0: Option<Json>, k1: string, v1: Option<Json>,
              k2: string, v2: Option<Json>, k3: string, v3: Option<Json>)
    requires k0 != k1 && k0 != k2 && k0 != k3 && k1 != k2 && k1 != k3 && k2 != k3
    ensures var j := Object4(k0, v0, k1, v1, k2, v2, k3, v3);
      && Carries(j, k0, v0) && Carries(j, k1, v1) && Carries(j, k2, v2) && Carries(j, k3, v3)
      && j.fields.Keys <= {k0, k1, k2, k3}
  {
    Keys4(k0, v0, k1, v1, k2, v2, k3, v3);
    Members4(k0, v0, k1, v1, k2, v2, k3, v3);
    hide Object4;
  }

  /** A member that holds a string whenever it is not empty. */
  function UnlessEmpty(s: string): Option<Json> {
    if s != "" then Some(JString(s)) else None
  }

  /** The array of what a slice's elements are written as. */
  ghost predicate IsArrayOf<T(!new)>(j: Json, xs: seq<T>, write: T -> Json) {
    j.JArray? && |j.items| == |xs| && forall i :: 0 <= i < |xs| ==> j.items[i] == write(xs[i])
  }

  /** The object of what a map's values are written as, under their own keys. */
  ghost predicate IsObjectOf<T(!new)>(j: Json, m: map<string, T>, write: T -> Json) {
    j.JObject? && j.fields.Keys == m.Keys && forall k :: k in m ==> j.fields[k] == write(m[k])
  }

  lemma OmittedMap<T(!new)>(c: Codec<T>, m: Option<map<string, T>>)
    ensures OmitMap(c, m).Some? <==> NonEmpty(m)
    ensures NonEmpty(m) ==> IsObjectOf(OmitMap(c, m).value, m.value, c.enc)
  {
  }

  /** The wire form of a model. */
  lemma ModelWire(m: AuthorizationModel)
    ensures var j := EncodeModel(m);
      && j.JObject? && j.fields.Keys <= {"id", "schema_version", "type_definitions", "conditions"}
      && Carries(j, "id", Some(JString(m.id))) && Carries(j, "schema_version", Some(JString(m.schemaVersion)))
      && "type_definitions" in j.fields
      && (if m.typeDefinitions.None? then j.fields["type_definitions"] == JNull
          else IsArrayOf(j.fields["type_definitions"], m.typeDefinitions.value, EncodeTypeDefinition))
      && ("conditions" in j.fields <==> NonEmpty(m.conditions))
      && (NonEmpty(m.conditions) ==> IsObjectOf(j.fields["conditions"], m.conditions.value, EncodeCondition))
  {
    assert |"id"| == 2 && |"schema_version"| == 14 && |"type_definitions"| == 16 && |"conditions"| == 10;
    Wire4("id", Str(m.id), "schema_version", Str(m.schemaVersion),
      "type_definitions", Some(EncodeSlice(TYPE_DEFINITION, m.typeDefinitions)), "conditions", OmitMap(CONDITION,
        m.conditions));
    hide Object4;
  }

  lemma TypeDefinitionWire(t: TypeDefinition)
    ensures var j := EncodeTypeDefinition(t);
      && j.JObject? && j.fields.Keys <= {"type", "relations", "metadata"}
      && Carries(j, "type", Some(JString(t.typ)))
      && ("relations" in j.fields <==> NonEmpty(t.relations))
      && (NonEmpty(t.relations) ==> IsObjectOf(j.fields["relations"], t.relations.value, EncodeUserset))
      && Carries(j, "metadata", if t.metadata.Some? then Some(EncodeMetadata(t.metadata.value)) else None)
  {
    assert |"type"| == 4 && |"relations"| == 9 && |"metadata"| == 8;
    OmittedMap(USERSET, t.relations);
    hide OmitMap, IsObjectOf;
    Wire4("type", Str(t.typ), "relations", OmitMap(USERSET, t.relations), "metadata", OmitPointer(METADATA, t.metadata),
      "", None);
    hide Object4;
  }

  lemma MetadataWire(m: Metadata)
    ensures var j := EncodeMetadata(m);
      && j.JObject? && j.fields.Keys <= {"relations", "module", "source_info"}
      && ("relations" in j.fields <==> NonEmpty(m.relations))
      && (NonEmpty(m.relations) ==> IsObjectOf(j.fields["relations"], m.relations.value, EncodeRelationMetadata))
      && Carries(j, "module", UnlessEmpty(m.moduleName))
      && Carries(j, "source_info", if m.sourceInfo.Some? then Some(EncodeSourceInfo(m.sourceInfo.value)) else None)
  {
    assert |"relations"| == 9 && |"module"| == 6 && |"source_info"| == 11;
    OmittedMap(RELATION_METADATA, m.relations);
    hide OmitMap, IsObjectOf;
    Wire4("relations", OmitMap(RELATION_METADATA, m.relations), "module", OmitString(m.moduleName),
      "source_info", OmitPointer(SOURCE_INFO, m.sourceInfo), "", None);
    hide Object4;
  }

  lemma RelationMetadataWire(r: RelationMetadata)
    ensures var j := EncodeRelationMetadata(r);
      var typed := r.userTypes.Some? && r.userTypes.value != [];
      && j.JObject? && j.fields.Keys <= {"directly_related_user_types", "module", "source_info"}
      && ("directly_related_user_types" in j.fields <==> typed)
      && (typed ==> IsArrayOf(j.fields["directly_related_user_types"], r.userTypes.value, EncodeReference))
      && Carries(j, "module", UnlessEmpty(r.moduleName))
      && Carries(j, "source_info", if r.sourceInfo.Some? then Some(EncodeSourceInfo(r.sourceInfo.value)) else None)
  {
    assert |"directly_related_user_types"| == 27 && |"module"| == 6 && |"source_info"| == 11;
    Wire4("directly_related_user_types", OmitSlice(REFERENCE, r.userTypes), "module", OmitString(r.moduleName),
      "source_info", OmitPointer(SOURCE_INFO, r.sourceInfo), "", None);
    hide Object4;
  }

  lemma ReferenceWire(u: RelationReference)
    ensures var j := EncodeReference(u);
      && j.JObject? && j.fields.Keys <= {"type", "relation", "wildcard", "condition"}
      && Carries(j, "type", Some(JString(u.typ))) && Carries(j, "relation", UnlessEmpty(u.relation))
      && Carries(j, "wildcard", if u.wildcard.Some? then Some(JObject(map[])) else None)
      && Carries(j, "condition", UnlessEmpty(u.condition))
  {
    assert "relation"[0] != "wildcard"[0];
    assert |"type"| == 4 && |"relation"| == |"wildcard"| == 8 && |"condition"| == 9;
    Wire4("type", Str(u.typ), "relation", OmitString(u.relation),
      "wildcard", OmitPointer(WILDCARD, u.wildcard), "condition", OmitString(u.condition));
    hide Object4;
  }

  lemma SourceInfoWire(i: SourceInfo)
    ensures EncodeSourceInfo(i) == JObject(if i.file == "" then map[] else map["file" := JString(i.file)])
  {
  }

  lemma ConditionWire(c: Condition)
    ensures var j := EncodeCondition(c);
      && j.JObject? && j.fields.Keys <= {"name", "expression", "parameters", "metadata"}
      && Carries(j, "name", Some(JString(c.name))) && Carries(j, "expression", Some(JString(c.expression)))
      && ("parameters" in j.fields <==> NonEmpty(c.parameters))
      && (NonEmpty(c.parameters) ==> IsObjectOf(j.fields["parameters"], c.parameters.value, EncodeParam))
      && Carries(j, "metadata", if c.metadata.Some? then Some(EncodeConditionMetadata(c.metadata.value)) else None)
  {
    assert "expression"[0] != "parameters"[0];
    assert |"name"| == 4 && |"expression"| == |"parameters"| == 10 && |"metadata"| == 8;
    OmittedMap(PARAM, c.parameters);
    hide OmitMap, IsObjectOf;
    Wire4("name", Str(c.name), "expression", Str(c.expression), "parameters", OmitMap(PARAM, c.parameters),
      "metadata", OmitPointer(CONDITION_METADATA, c.metadata));
    hide Object4;
  }

  lemma ParamWire(p: ParamType)
    ensures var j := EncodeParam(p);
      var typed := p.generics.Generics? && p.generics.items != [];
      && j.JObject? && j.fields.Keys <= {"type_name", "generic_types"}
      && Carries(j, "type_name", Some(JString(p.typeName)))
      && ("generic_types" in j.fields <==> typed)
      && (typed ==> IsArrayOf(j.fields["generic_types"], p.generics.items, EncodeParam))
  {
    assert |"type_name"| == 9 && |"generic_types"| == 13;
  }

  lemma ConditionMetadataWire(m: ConditionMetadata)
    ensures var j := EncodeConditionMetadata(m);
      && j.JObject? && j.fields.Keys <= {"module", "source_info"}
      && Carries(j, "module", UnlessEmpty(m.moduleName))
      && Carries(j, "source_info", if m.sourceInfo.Some? then Some(EncodeSourceInfo(m.sourceInfo.value)) else None)
  {
    assert |"module"| == 6 && |"source_info"| == 11;
  }

  /** The rewrites of a model come back untouched: relation by relation, one branch at every depth
      where there was one. */
  lemma RewritesSurvive(m: AuthorizationModel, i: nat, relation: string)
    requires m.typeDefinitions.Some? && i < |m.typeDefinitions.value|
    requires m.typeDefinitions.value[i].relations.Some? && relation in m.typeDefinitions.value[i].relations.value
    ensures var back := DecodeModel(EncodeModel(m));
      && back.Value? && back.v.typeDefinitions.Some? && i < |back.v.typeDefinitions.value|
      && var t := back.v.typeDefinitions.value[i];
      && t.relations.Some? && relation in t.relations.value
      && t.relations.value[relation] == m.typeDefinitions.value[i].relations.value[relation]
  {
    ModelRoundTrip(m, m);
    var t := m.typeDefinitions.value[i];
    assert NormModel(m).typeDefinitions.value[i] == NormTypeDefinition(t);
    assert NormTypeDefinition(t).relations.value[relation] == t.relations.value[relation];
  }
}
