/** The ListUsers target: "type:id" in memory, a {type, id, relation} object on the wire. */
module ObjectTarget {
  import opened Json

  datatype Target = Target(object_: string, relation: string)

  /** strings.IndexByte(s, ':'). */
  function Colon(s: string): (i: int)
    ensures -1 <= i < |s|
    ensures i >= 0 ==> s[i] == ':'
    ensures forall m :: 0 <= m < (if i >= 0 then i else |s|) ==> s[m] != ':'
  {
    if s == "" then -1
    else if s[0] == ':' then 0
    else
      var i := Colon(s[1..]);
      if i < 0 then -1 else i + 1
  }

  function TypeOf(s: string): string {
    if Colon(s) < 0 then s else s[..Colon(s)]
  }

  function IdOf(s: string): string {
    if Colon(s) < 0 then "" else s[Colon(s) + 1..]
  }

  /** The object written for a type, an id and a relation, without the empty ones. */
  function Wire(typ: string, id: string, relation: string): Json {
    JObject(Put(Put(Put(map[], "type", OmitString(typ)), "id", OmitString(id)), "relation", OmitString(relation)))
  }

  function Marshal(t: Target): Json {
    Wire(TypeOf(t.object_), IdOf(t.object_), t.relation)
  }

  /** What decoding a tree into an existing target makes of it. A bare string, or a null, sets the object
      only. */
  function Unmarshal(before: Target, j: Json): Decoded<Target> {
    if GetString(j).Value? then Value(before.(object_ := GetString(j).v))
    else if !IsStruct(j) then Mismatch
    else
      var typ :- GetString(Field(j, "type"));
      var id :- GetString(Field(j, "id"));
      var relation :- GetString(Field(j, "relation"));
      Value(Target(if id != "" then typ + ":" + id else typ, relation))
  }

  class FGAObjectRelation {
    var object_: string
    var relation: string

    function Now(): Target
      reads this
    {
      Target(object_, relation)
    }

    constructor (object_: string, relation: string)
      ensures Now() == Target(object_, relation)
    {
      this.object_, this.relation := object_, relation;
    }

    method MarshalJSON() returns (j: Json)
      ensures j == Marshal(Now())
    {
      var typ, id := object_, "";
      var i := Colon(object_);
      if i >= 0 {
        typ, id := object_[..i], object_[i + 1..];
      }
      if relation == "" {
        return JObject(Put(Put(map[], "type", OmitString(typ)), "id", OmitString(id)));
      }
      j := JObject(Put(Put(Put(map[], "type", OmitString(typ)), "id", OmitString(id)), "relation",
        OmitString(relation)));
    }

    /** A failed decode leaves the target as it was. */
    method UnmarshalJSON(j: Json) returns (ok: bool)
      modifies this
      ensures ok == Unmarshal(old(Now()), j).Value?
      ensures Now() == if ok then Unmarshal(old(Now()), j).v else old(Now())
    {
      var s := GetString(j);
      if s.Value? {
        object_ := s.v;
        return true;
      }
      if !IsStruct(j) {
        return false;
      }
      var typ, id, rel := GetString(Field(j, "type")), GetString(Field(j, "id")), GetString(Field(j, "relation"));
      if typ.Mismatch? || id.Mismatch? || rel.Mismatch? {
        return false;
      }
      if id.v != "" {
        object_ := typ.v + ":" + id.v;
      } else {
        object_ := typ.v;
      }
      relation := rel.v;
      return true;
    }
  }

  // ---------------------------------------------------------------- what survives

  lemma WireFields(typ: string, id: string, relation: string)
    ensures var j := Wire(typ, id, relation);
      && Field(j, "type") == Seen(OmitString(typ)) && Field(j, "id") == Seen(OmitString(id))
      && Field(j, "relation") == Seen(OmitString(relation))
  {
    assert |"type"| == 4 && |"id"| == 2 && |"relation"| == 8;
  }

  /** Reading the object written for a type, an id and a relation. */
  lemma WireRead(before: Target, typ: string, id: string, relation: string)
    ensures Unmarshal(before, Wire(typ, id, relation)) ==
      Value(Target(if id != "" then typ + ":" + id else typ, relation))
  {
    WireFields(typ, id, relation);
  }

  lemma WireInjective(typ: string, id: string, relation: string, typ': string, id': string, relation': string)
    requires Wire(typ, id, relation) == Wire(typ', id', relation')
    ensures typ == typ' && id == id' && relation == relation'
  {
    WireFields(typ, id, relation);
    WireFields(typ', id', relation');
  }

  /** A colon is found where a prefix without one ends. */
  lemma ColonAfter(typ: string, rest: string)
    requires ':' !in typ
    ensures Colon(typ + ":" + rest) == |typ|
  {
    hide Colon;
    var s := typ + ":" + rest;
    assert s[|typ|] == ':';
    assert forall m :: 0 <= m < |typ| ==> s[m] == typ[m];
  }

  lemma Cut(s: string, c: nat)
    requires c < |s| && s[c] == ':'
    ensures s[..c] + ":" + s[c + 1..] == s
  {
  }

  /** Splitting and joining give the object back unless its first colon is its last character. */
  lemma SplitJoin(s: string)
    ensures ':' !in TypeOf(s)
    ensures IdOf(s) != "" ==> TypeOf(s) + ":" + IdOf(s) == s
    ensures IdOf(s) == "" ==> (TypeOf(s) == s <==> Colon(s) < 0) && (Colon(s) < 0 || Colon(s) == |s| - 1)
  {
    hide Colon;
    var c := Colon(s);
    if c >= 0 {
      Cut(s, c);
      assert TypeOf(s) == s[..c] && |IdOf(s)| == |s| - c - 1;
      assert |TypeOf(s)| == c;
    }
  }

  /** Written and read back into any target, an object survives exactly when its first colon is missing or
      not its last character. */
  lemma ReadBack(t: Target, before: Target)
    ensures Unmarshal(before, Marshal(t)).Value? && Unmarshal(before, Marshal(t)).v.relation == t.relation
    ensures Unmarshal(before, Marshal(t)) == Value(t) <==> Colon(t.object_) < 0 || Colon(t.object_) < |t.object_| - 1
  {
    WireRead(before, TypeOf(t.object_), IdOf(t.object_), t.relation);
    SplitJoin(t.object_);
  }

  /** The wire form of an object survives exactly when its type has no colon. */
  lemma WrittenBack(before: Target, typ: string, id: string, relation: string)
    ensures var back := Unmarshal(before, Wire(typ, id, relation));
      && back.Value?
      && (Marshal(back.v) == Wire(typ, id, relation) <==> ':' !in typ)
  {
    WireRead(before, typ, id, relation);
    var s := if id != "" then typ + ":" + id else typ;
    if ':' !in typ {
      if id != "" {
        ColonAfter(typ, id);
        assert s[..|typ|] == typ && s[|typ| + 1..] == id;
      }
    } else if Marshal(Target(s, relation)) == Wire(typ, id, relation) {
      WireInjective(TypeOf(s), IdOf(s), relation, typ, id, relation);
      SplitJoin(s);
    }
  }

  /** For every target, ids with colons and empty types included, one round trip reaches a fixed point
      with the same wire form. */
  lemma OneRoundTripSettles(t: Target, before: Target, before': Target)
    ensures var once := Unmarshal(before, Marshal(t));
      && once.Value? && Marshal(once.v) == Marshal(t)
      && Unmarshal(before', Marshal(once.v)) == Value(once.v)
  {
    var typ, id := TypeOf(t.object_), IdOf(t.object_);
    SplitJoin(t.object_);
    WireRead(before, typ, id, t.relation);
    WrittenBack(before, typ, id, t.relation);
    WireRead(before', typ, id, t.relation);
  }

  /** A bare string reads as the object it spells, and is written as its structured form from then on. */
  lemma BareString(before: Target, s: string)
    ensures var back := Unmarshal(before, JString(s));
      back.Value? && Marshal(back.v) == Wire(TypeOf(s), IdOf(s), before.relation)
  {
  }

  /** The wire form of a target: the text before the first colon as type, the text after it as id, the relation;
      without the empty ones. */
  lemma TargetWire(typ: string, id: string, relation: string)
    requires ':' !in typ
    ensures var j := Marshal(Target(typ + ":" + id, relation));
      && j.JObject?
      && j.fields.Keys == When(typ != "", "type") + When(id != "", "id") + When(relation != "", "relation")
      && ("type" in j.fields ==> j.fields["type"] == JString(typ))
      && ("id" in j.fields ==> j.fields["id"] == JString(id))
      && ("relation" in j.fields ==> j.fields["relation"] == JString(relation))
    ensures Marshal(Target(typ, relation)) == Wire(typ, "", relation)
  {
    ColonAfter(typ, id);
    var s := typ + ":" + id;
    assert s[..|typ|] == typ && s[|typ| + 1..] == id;
    WireFields(typ, id, relation);
    assert |"type"| == 4 && |"id"| == 2 && |"relation"| == 8;
  }

  /** Which trees can be read as a target: a string, a null, or an object whose three members, where they are
      there, are strings or null. A null reads as an empty object name. */
  lemma ReadableMeans(before: Target, j: Json)
    ensures Unmarshal(before, j).Value? <==>
      match j
      case JString(_) => true
      case JNull => true
      case JObject(f) => forall k :: k in f && k in {"type", "id", "relation"} ==> f[k].JString? || f[k].JNull?
      case _ => false
    ensures Unmarshal(before, JNull) == Value(Target("", before.relation))
  {
    if j.JObject? {
      var f := j.fields;
      assert forall k :: k in {"type", "id", "relation"} ==>
        (GetString(Field(j, k)).Value? <==> k in f ==> f[k].JString? || f[k].JNull?);
      assert "type" in {"type", "id", "relation"} && "id" in {"type", "id", "relation"}
             && "relation" in {"type", "id", "relation"};
    }
  }
}
