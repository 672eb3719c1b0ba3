/** Which JSON trees can be read as a model: each member null, absent or of its type, at every depth, and
    whatever other members there are. */
module ModelTypes {
  import opened Basics
  import opened Json
  import opened Rewrites
  import opened ModelCodec

  predicate Text(j: Json) {
    j.JNull? || j.JString?
  }

  predicate Struct(j: Json) {
    j.JNull? || j.JObject?
  }

  ghost predicate ArrayOf(item: Json -> bool, j: Json) {
    j.JNull? || (j.JArray? && forall i :: 0 <= i < |j.items| ==> item(j.items[i]))
  }

  ghost predicate ObjectOf(item: Json -> bool, j: Json) {
    j.JNull? || (j.JObject? && forall k :: k in j.fields ==> item(j.fields[k]))
  }

  /** The codec reads exactly the trees that are typed so. */
  ghost predicate Reads<T>(c: Codec<T>, typed: Json -> bool) {
    forall j :: typed(j) <==> c.dec(j).Value?
  }

  lemma PointerReads<T>(c: Codec<T>, typed: Json -> bool, j: Json)
    requires Reads(c, typed) && typed(JNull)
    ensures GetPointer(c, j).Value? <==> typed(j)
  {
  }

  lemma SliceReads<T>(c: Codec<T>, typed: Json -> bool, j: Json)
    requires Reads(c, typed)
    ensures GetSlice(c, j).Value? <==> ArrayOf(typed, j)
  {
    assert j.JArray? ==> forall i :: 0 <= i < |j.items| ==> (typed(j.items[i]) <==> c.dec(j.items[i]).Value?);
  }

  lemma MapReads<T>(c: Codec<T>, typed: Json -> bool, j: Json)
    requires Reads(c, typed)
    ensures GetMap(c, j).Value? <==> ObjectOf(typed, j)
  {
    assert j.JObject? ==> forall k :: k in j.fields ==> (typed(j.fields[k]) <==> c.dec(j.fields[k]).Value?);
  }

  // ---------------------------------------------------------------- rewrites

  predicate TypedReference(j: Json) {
    Struct(j) && Text(Field(j, "object")) && Text(Field(j, "relation"))
  }

  predicate TypedTupleTo(j: Json) {
    Struct(j) && TypedReference(Field(j, "tupleset")) && TypedReference(Field(j, "computedUserset"))
  }

  predicate TypedRewrite(j: Json)
    decreases j, 1
  {
    && Struct(j) && Struct(Field(j, "this"))
    && TypedReference(Field(j, "computedUserset")) && TypedTupleTo(Field(j, "tupleToUserset"))
    && (Field(j, "union").JNull? || TypedOperands(Field(j, "union")))
    && (Field(j, "intersection").JNull? || TypedOperands(Field(j, "intersection")))
    && (Field(j, "difference").JNull? || TypedDifference(Field(j, "difference")))
  }

  predicate TypedOperands(j: Json)
    decreases j, 2
  {
    && Struct(j)
    && var child := Field(j, "child");
    && (child.JNull? || (child.JArray? && forall i :: 0 <= i < |child.items| ==> TypedRewrite(child.items[i])))
  }

  predicate TypedDifference(j: Json)
    decreases j, 2
  {
    && Struct(j)
    && (Field(j, "base").JNull? || TypedRewrite(Field(j, "base")))
    && (Field(j, "subtract").JNull? || TypedRewrite(Field(j, "subtract")))
  }

  lemma LeavesRead()
    ensures Reads(DIRECT, Struct) && Reads(OBJECT_RELATION, TypedReference) && Reads(TUPLE_TO, TypedTupleTo)
  {
  }

  /** A rewrite of any depth is read exactly when it is typed. */
  lemma {:induction false} RewriteReads(j: Json)
    ensures DecodeUserset(j).Value? <==> TypedRewrite(j)
    decreases j, 1
  {
    LeavesRead();
    PointerReads(DIRECT, Struct, Field(j, "this"));
    PointerReads(OBJECT_RELATION, TypedReference, Field(j, "computedUserset"));
    PointerReads(TUPLE_TO, TypedTupleTo, Field(j, "tupleToUserset"));
    hide GetPointer, TypedReference, TypedTupleTo;
    if j.JObject? {
      if !Field(j, "union").JNull? {
        OperandsRead(Field(j, "union"));
      }
      if !Field(j, "intersection").JNull? {
        OperandsRead(Field(j, "intersection"));
      }
      if !Field(j, "difference").JNull? {
        DifferenceReads(Field(j, "difference"));
      }
    }
  }

  lemma {:induction false} OperandsRead(j: Json)
    ensures DecodeUsersets(j).Value? <==> TypedOperands(j)
    decreases j, 2
  {
    var child := Field(j, "child");
    if child.JArray? {
      forall i | 0 <= i < |child.items|
        ensures DecodeUserset(child.items[i]).Value? <==> TypedRewrite(child.items[i])
      {
        RewriteReads(child.items[i]);
      }
    }
  }

  lemma {:induction false} DifferenceReads(j: Json)
    ensures DecodeDifference(j).Value? <==> TypedDifference(j)
    decreases j, 2
  {
    if !Field(j, "base").JNull? {
      RewriteReads(Field(j, "base"));
    }
    if !Field(j, "subtract").JNull? {
      RewriteReads(Field(j, "subtract"));
    }
  }

  // ---------------------------------------------------------------- the rest of the schema

  predicate TypedSourceInfo(j: Json) {
    Struct(j) && Text(Field(j, "file"))
  }

  predicate TypedUserType(j: Json) {
    && Struct(j) && Text(Field(j, "type")) && Text(Field(j, "relation")) && Text(Field(j, "condition"))
    && Struct(Field(j, "wildcard"))
  }

  ghost predicate TypedRelationMetadata(j: Json) {
    && Struct(j) && ArrayOf(TypedUserType, Field(j, "directly_related_user_types"))
    && Text(Field(j, "module")) && TypedSourceInfo(Field(j, "source_info"))
  }

  ghost predicate TypedMetadata(j: Json) {
    && Struct(j) && ObjectOf(j => TypedRelationMetadata(j), Field(j, "relations"))
    && Text(Field(j, "module")) && TypedSourceInfo(Field(j, "source_info"))
  }

  predicate TypedParam(j: Json)
    decreases j
  {
    && Struct(j) && Text(Field(j, "type_name"))
    && var g := Field(j, "generic_types");
    && (g.JNull? || (g.JArray? && forall i :: 0 <= i < |g.items| ==> TypedParam(g.items[i])))
  }

  predicate TypedConditionMetadata(j: Json) {
    Struct(j) && Text(Field(j, "module")) && TypedSourceInfo(Field(j, "source_info"))
  }

  ghost predicate TypedCondition(j: Json) {
    && Struct(j) && Text(Field(j, "name")) && Text(Field(j, "expression"))
    && ObjectOf(TypedParam, Field(j, "parameters")) && TypedConditionMetadata(Field(j, "metadata"))
  }

  ghost predicate TypedTypeDefinition(j: Json) {
    && Struct(j) && Text(Field(j, "type")) && ObjectOf(TypedRewrite, Field(j, "relations"))
    && TypedMetadata(Field(j, "metadata"))
  }

  ghost predicate TypedModel(j: Json) {
    && Struct(j) && Text(Field(j, "id")) && Text(Field(j, "schema_version"))
    && ArrayOf(j => TypedTypeDefinition(j), Field(j, "type_definitions"))
    && ObjectOf(j => TypedCondition(j), Field(j, "conditions"))
  }

  lemma SmallReads()
    ensures Reads(SOURCE_INFO, TypedSourceInfo) && Reads(WILDCARD, Struct) && Reads(REFERENCE, TypedUserType)
    ensures Reads(CONDITION_METADATA, TypedConditionMetadata)
  {
    forall j ensures TypedUserType(j) <==> DecodeReference(j).Value? {
      PointerReads(WILDCARD, Struct, Field(j, "wildcard"));
    }
    forall j ensures TypedConditionMetadata(j) <==> DecodeConditionMetadata(j).Value? {
      PointerReads(SOURCE_INFO, TypedSourceInfo, Field(j, "source_info"));
    }
  }

  lemma RelationMetadataReads()
    ensures Reads(RELATION_METADATA, j => TypedRelationMetadata(j))
  {
    SmallReads();
    forall j ensures TypedRelationMetadata(j) <==> DecodeRelationMetadata(j).Value? {
      SliceReads(REFERENCE, TypedUserType, Field(j, "directly_related_user_types"));
      PointerReads(SOURCE_INFO, TypedSourceInfo, Field(j, "source_info"));
    }
  }

  lemma MetadataReads()
    ensures Reads(METADATA, j => TypedMetadata(j))
  {
    SmallReads();
    RelationMetadataReads();
    forall j ensures TypedMetadata(j) <==> DecodeMetadata(j).Value? {
      MapReads(RELATION_METADATA, j => TypedRelationMetadata(j), Field(j, "relations"));
      PointerReads(SOURCE_INFO, TypedSourceInfo, Field(j, "source_info"));
    }
  }

  lemma {:induction false} ParamReads(j: Json)
    ensures DecodeParam(j).Value? <==> TypedParam(j)
    decreases j
  {
    var g := Field(j, "generic_types");
    if g.JArray? {
      forall i | 0 <= i < |g.items|
        ensures DecodeParam(g.items[i]).Value? <==> TypedParam(g.items[i])
      {
        ParamReads(g.items[i]);
      }
    }
  }

  lemma ConditionReads()
    ensures Reads(CONDITION, j => TypedCondition(j))
  {
    SmallReads();
    forall j ensures TypedParam(j) <==> PARAM.dec(j).Value? {
      ParamReads(j);
    }
    forall j ensures TypedCondition(j) <==> DecodeCondition(j).Value? {
      MapReads(PARAM, TypedParam, Field(j, "parameters"));
      PointerReads(CONDITION_METADATA, TypedConditionMetadata, Field(j, "metadata"));
    }
  }

  lemma TypeDefinitionReads()
    ensures Reads(TYPE_DEFINITION, j => TypedTypeDefinition(j))
  {
    MetadataReads();
    forall j ensures TypedRewrite(j) <==> USERSET.dec(j).Value? {
      RewriteReads(j);
    }
    forall j ensures TypedTypeDefinition(j) <==> DecodeTypeDefinition(j).Value? {
      MapReads(USERSET, TypedRewrite, Field(j, "relations"));
      PointerReads(METADATA, j => TypedMetadata(j), Field(j, "metadata"));
    }
  }

  /** A tree is read as a model exactly when it is typed as one. */
  lemma ModelReads(j: Json)
    ensures DecodeModel(j).Value? <==> TypedModel(j)
  {
    TypeDefinitionReads();
    ConditionReads();
    SliceReads(TYPE_DEFINITION, j => TypedTypeDefinition(j), Field(j, "type_definitions"));
    MapReads(CONDITION, j => TypedCondition(j), Field(j, "conditions"));
  }
}
