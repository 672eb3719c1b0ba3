/** JSON value trees and the struct-tag rules of encoding/json that the schema types use: which
    members are written, and what a member, a null or an absent member decodes to. */
module Json {
  import opened Basics

  datatype Json =
    | JNull
    | JBool(b: bool)
    | JNumber(n: int)
    | JString(s: string)
    | JArray(items: seq<Json>)
    | JObject(fields: map<string, Json>)

  /** What decoding a tree into a Go value gives; the one failure on trees is a type mismatch. */
  datatype Decoded<+T> = Value(v: T) | Mismatch {
    predicate IsFailure() { Mismatch? }
    function PropagateFailure<U>(): Decoded<U> requires Mismatch? { Mismatch }
    function Extract(): T requires Value? { v }
  }

  const EMPTY_OBJECT := JObject(map[])

  /** A member's value; an absent member reads like a null. */
  function At(fields: map<string, Json>, key: string): Json {
    if key in fields then fields[key] else JNull
  }

  /** The value a struct field is decoded from. */
  function Field(j: Json, key: string): Json {
    if j.JObject? then At(j.fields, key) else JNull
  }

  /** Writing a struct field as an object member, or leaving it out. */
  function Put(fields: map<string, Json>, key: string, value: Option<Json>): (r: map<string, Json>)
    ensures At(r, key) == if value.Some? then value.value else At(fields, key)
    ensures forall k :: k != key ==> At(r, k) == At(fields, k)
  {
    if value.Some? then fields[key := value.value] else fields
  }

  /** A member name, when the member is written. */
  function When(written: bool, key: string): set<string> {
    if written then {key} else {}
  }

  lemma PutKeys(fields: map<string, Json>, key: string, value: Option<Json>)
    ensures Put(fields, key, value).Keys == fields.Keys + When(value.Some?, key)
  {
  }

  /** What can be decoded into a struct. */
  predicate IsStruct(j: Json) {
    j.JObject? || j.JNull?
  }

  /** What a reader of the member sees. */
  function Seen(value: Option<Json>): Json {
    if value.Some? then value.value else JNull
  }

  // ---------------------------------------------------------------- strings

  function OmitString(s: string): Option<Json> {
    if s == "" then None else Some(JString(s))
  }

  function GetString(j: Json): Decoded<string> {
    match j
    case JNull => Value("")
    case JString(s) => Value(s)
    case _ => Mismatch
  }

  // ---------------------------------------------------------------- codecs

  /** How values of a type are written and read; norm is what a value becomes by being written and
      read once, and canonical holds of the values that come back unchanged. */
  datatype Codec<!T> = Codec(enc: T -> Json, dec: Json -> Decoded<T>, norm: T -> T, canonical: T -> bool)

  /** What a codec promises of one value. */
  ghost predicate LawAt<T>(c: Codec<T>, x: T) {
    && !c.enc(x).JNull?
    && c.dec(c.enc(x)) == Value(c.norm(x))
    && c.enc(c.norm(x)) == c.enc(x)
    && (c.canonical(x) <==> c.norm(x) == x)
  }

  ghost predicate Lawful<T(!new)>(c: Codec<T>) {
    forall x :: LawAt(c, x)
  }

  // ---------------------------------------------------------------- pointers: nil is None

  function OmitPointer<T>(c: Codec<T>, p: Option<T>): Option<Json> {
    if p.Some? then Some(c.enc(p.value)) else None
  }

  function GetPointer<T>(c: Codec<T>, j: Json): Decoded<Option<T>> {
    if j.JNull? then Value(None)
    else
      var x :- c.dec(j);
      Value(Some(x))
  }

  function NormPointer<T>(c: Codec<T>, p: Option<T>): Option<T> {
    if p.Some? then Some(c.norm(p.value)) else None
  }

  predicate CanonicalPointer<T>(c: Codec<T>, p: Option<T>) {
    p.Some? ==> c.canonical(p.value)
  }

  lemma PointerLaw<T(!new)>(c: Codec<T>, p: Option<T>)
    requires Lawful(c)
    ensures GetPointer(c, Seen(OmitPointer(c, p))) == Value(NormPointer(c, p))
    ensures OmitPointer(c, NormPointer(c, p)) == OmitPointer(c, p)
    ensures CanonicalPointer(c, p) <==> NormPointer(c, p) == p
  {
    assert p.Some? ==> LawAt(c, p.value);
  }

  // ---------------------------------------------------------------- slices: nil is None

  function EncodeSlice<T>(c: Codec<T>, xs: Option<seq<T>>): Json {
    if xs.None? then JNull else JArray(seq(|xs.value|, i requires 0 <= i < |xs.value| => c.enc(xs.value[i])))
  }

  function GetSlice<T>(c: Codec<T>, j: Json): Decoded<Option<seq<T>>> {
    match j
    case JNull => Value(None)
    case JArray(items) =>
      if forall i :: 0 <= i < |items| ==> c.dec(items[i]).Value? then
        Value(Some(seq(|items|, i requires 0 <= i < |items| && c.dec(items[i]).Value? => c.dec(items[i]).v)))
      else Mismatch
    case _ => Mismatch
  }

  function NormSlice<T>(c: Codec<T>, xs: Option<seq<T>>): Option<seq<T>> {
    if xs.None? then None else Some(seq(|xs.value|, i requires 0 <= i < |xs.value| => c.norm(xs.value[i])))
  }

  predicate CanonicalSlice<T>(c: Codec<T>, xs: Option<seq<T>>) {
    xs.Some? ==> forall i :: 0 <= i < |xs.value| ==> c.canonical(xs.value[i])
  }

  lemma SliceLaw<T(!new)>(c: Codec<T>, xs: Option<seq<T>>)
    requires Lawful(c)
    ensures GetSlice(c, EncodeSlice(c, xs)) == Value(NormSlice(c, xs))
    ensures EncodeSlice(c, NormSlice(c, xs)) == EncodeSlice(c, xs)
    ensures CanonicalSlice(c, xs) <==> NormSlice(c, xs) == xs
  {
    if xs.Some? {
      forall i | 0 <= i < |xs.value| ensures LawAt(c, xs.value[i]) {
      }
      assert GetSlice(c, EncodeSlice(c, xs)).v.value == NormSlice(c, xs).value;
      assert EncodeSlice(c, NormSlice(c, xs)).items == EncodeSlice(c, xs).items;
      if CanonicalSlice(c, xs) {
        assert NormSlice(c, xs).value == xs.value;
      } else {
        var i :| 0 <= i < |xs.value| && !c.canonical(xs.value[i]);
        assert NormSlice(c, xs).value[i] != xs.value[i];
      }
    }
  }

  /** omitempty drops an empty slice as well as a nil one. */
  function NilIfEmpty<T>(xs: Option<seq<T>>): Option<seq<T>> {
    if xs == Some([]) then None else xs
  }

  function OmitSlice<T>(c: Codec<T>, xs: Option<seq<T>>): Option<Json> {
    if NilIfEmpty(xs).None? then None else Some(EncodeSlice(c, xs))
  }

  lemma OmitSliceLaw<T(!new)>(c: Codec<T>, xs: Option<seq<T>>)
    requires Lawful(c)
    ensures GetSlice(c, Seen(OmitSlice(c, xs))) == Value(NormSlice(c, NilIfEmpty(xs)))
    ensures OmitSlice(c, NormSlice(c, NilIfEmpty(xs))) == OmitSlice(c, xs)
    ensures CanonicalSlice(c, xs) && xs != Some([]) <==> NormSlice(c, NilIfEmpty(xs)) == xs
  {
    SliceLaw(c, xs);
  }

  // ---------------------------------------------------------------- maps: nil is None

  function OmitMap<T>(c: Codec<T>, m: Option<map<string, T>>): Option<Json> {
    if m.None? || m.value == map[] then None else Some(JObject(map k | k in m.value :: c.enc(m.value[k])))
  }

  function GetMap<T>(c: Codec<T>, j: Json): Decoded<Option<map<string, T>>> {
    match j
    case JNull => Value(None)
    case JObject(fields) =>
      if forall k :: k in fields ==> c.dec(fields[k]).Value? then
        Value(Some(map k | k in fields && c.dec(fields[k]).Value? :: c.dec(fields[k]).v))
      else Mismatch
    case _ => Mismatch
  }

  function NormMap<T>(c: Codec<T>, m: Option<map<string, T>>): Option<map<string, T>> {
    if m.None? || m.value == map[] then None else Some(map k | k in m.value :: c.norm(m.value[k]))
  }

  predicate CanonicalMap<T>(c: Codec<T>, m: Option<map<string, T>>) {
    m.Some? ==> m.value != map[] && forall k :: k in m.value ==> c.canonical(m.value[k])
  }

  lemma OmitMapLaw<T(!new)>(c: Codec<T>, m: Option<map<string, T>>)
    requires Lawful(c)
    ensures GetMap(c, Seen(OmitMap(c, m))) == Value(NormMap(c, m))
    ensures OmitMap(c, NormMap(c, m)) == OmitMap(c, m)
    ensures CanonicalMap(c, m) <==> NormMap(c, m) == m
  {
    if m.Some? && m.value != map[] {
      forall k | k in m.value ensures LawAt(c, m.value[k]) {
      }
      var norm := NormMap(c, m).value;
      var k0 :| k0 in m.value;
      assert k0 in norm;
      assert GetMap(c, Seen(OmitMap(c, m))).v.value == norm;
      assert OmitMap(c, Some(norm)).value.fields == OmitMap(c, m).value.fields;
      if CanonicalMap(c, m) {
        assert norm == m.value;
      } else {
        var k :| k in m.value && !c.canonical(m.value[k]);
        assert norm[k] != m.value[k];
      }
    }
  }

  // ---------------------------------------------------------------- what any lawful codec gives

  /** Read after write is the value's normal form; a second round changes nothing more; it is the value
      itself exactly when the value is canonical; and two values have the same wire form exactly when
      they have the same normal form. */
  lemma CodecMeans<T(!new)>(c: Codec<T>, x: T, y: T)
    requires Lawful(c)
    ensures c.dec(c.enc(x)) == Value(c.norm(x)) && c.norm(c.norm(x)) == c.norm(x)
    ensures c.dec(c.enc(x)) == Value(x) <==> c.canonical(x)
    ensures c.enc(x) == c.enc(y) <==> c.norm(x) == c.norm(y)
  {
    assert LawAt(c, x) && LawAt(c, y) && LawAt(c, c.norm(x));
  }
}
