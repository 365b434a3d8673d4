/** `serde_json::Value` with the `preserve_order` feature: an object keeps its keys in insertion order. */
module Json {
  import opened Wrappers

  type Fields = seq<(string, Json)>

  datatype Json =
    | Null
    | Bool(b: bool)
    | Number(n: int)
    | Str(s: string)
    | Array(items: seq<Json>)
    | Object(fields: Fields)

  /** The keys of an object, in order. */
  function Keys(fields: Fields): (keys: seq<string>)
    ensures |keys| == |fields|
    ensures forall i :: 0 <= i < |fields| ==> keys[i] == fields[i].0
  {
    seq(|fields|, i requires 0 <= i < |fields| => fields[i].0)
  }

  /** No key occurs twice: every `Map` satisfies this. */
  ghost predicate Distinct(fields: Fields) {
    forall i, j :: 0 <= i < j < |fields| ==> fields[i].0 != fields[j].0
  }

  function Lookup(fields: Fields, key: string): (r: Option<Json>)
    ensures r.None? <==> key !in Keys(fields)
    ensures r.Some? ==> (key, r.value) in fields
  {
    if fields == [] then None
    else if fields[0].0 == key then Some(fields[0].1)
    else
      var rest := Lookup(fields[1..], key);
      assert Keys(fields) == [fields[0].0] + Keys(fields[1..]);
      rest
  }

  /** `Map::insert`: an existing key keeps its place and takes the new value, a new key goes to the end. */
  function Insert(fields: Fields, key: string, value: Json): Fields {
    if fields == [] then [(key, value)]
    else if fields[0].0 == key then [(key, value)] + fields[1..]
    else [fields[0]] + Insert(fields[1..], key, value)
  }

  lemma KeysCons(field: (string, Json), rest: Fields)
    ensures Keys([field] + rest) == [field.0] + Keys(rest)
  {
  }

  lemma {:induction false} InsertKeys(fields: Fields, key: string, value: Json)
    ensures key in Keys(fields) ==> Keys(Insert(fields, key, value)) == Keys(fields)
    ensures key !in Keys(fields) ==> Insert(fields, key, value) == fields + [(key, value)]
  {
    if fields != [] {
      assert fields == [fields[0]] + fields[1..];
      KeysCons(fields[0], fields[1..]);
      if fields[0].0 == key {
        KeysCons((key, value), fields[1..]);
      } else {
        InsertKeys(fields[1..], key, value);
        KeysCons(fields[0], Insert(fields[1..], key, value));
      }
    }
  }

  /** `value.get(key)`: a field of an object, nothing for any other value. */
  function Get(value: Json, key: string): Option<Json> {
    if value.Object? then Lookup(value.fields, key) else None
  }

  /** `value[key] = field`: null becomes an object, any other non-object makes the code panic (here: None). */
  function SetField(value: Json, key: string, field: Json): Option<Json> {
    match value
    case Object(fields) => Some(Object(Insert(fields, key, field)))
    case Null => Some(Object([(key, field)]))
    case _ => None
  }

  lemma InsertDistinct(fields: Fields, key: string, value: Json)
    requires Distinct(fields)
    ensures Distinct(Insert(fields, key, value))
  {
    var r := Insert(fields, key, value);
    InsertKeys(fields, key, value);
    if key in Keys(fields) {
      forall i, j | 0 <= i < j < |r| ensures r[i].0 != r[j].0 {
        assert r[i].0 == Keys(r)[i] == fields[i].0;
        assert r[j].0 == Keys(r)[j] == fields[j].0;
      }
    } else {
      forall i | 0 <= i < |fields| ensures fields[i].0 != key {
        assert Keys(fields)[i] == fields[i].0;
      }
    }
  }

  /** What a later lookup sees after an insertion: the new value under its key, everything else as before. */
  lemma {:induction false} LookupInsert(fields: Fields, key: string, value: Json, other: string)
    ensures Lookup(Insert(fields, key, value), other) == if other == key then Some(value) else Lookup(fields, other)
  {
    if fields != [] && fields[0].0 != key {
      LookupInsert(fields[1..], key, value, other);
      var r := Insert(fields, key, value);
      assert r[1..] == Insert(fields[1..], key, value);
    }
  }

  /** The same for an assignment to a field of a value. */
  lemma GetSetField(value: Json, key: string, field: Json, other: string)
    ensures var r := SetField(value, key, field);
            && (r.Some? <==> value.Object? || value.Null?)
            && (r.Some? ==> r.value.Object? && Get(r.value, other) == if other == key then Some(field) else Get(value, other))
  {
    if value.Object? {
      LookupInsert(value.fields, key, field, other);
    }
  }
}
