/** JSON values as the source handles them after parsing. An object keeps its fields in order. */
module Json {
  import opened Prelude

  datatype Json =
    | Null
    | Bool(flag: bool)
    | Int(number: int)
    | Float(measure: real)
    | Str(text: string)
    | Arr(items: seq<Json>)
    | Obj(fields: seq<Field>)

  datatype Field = Field(key: string, value: Json)

  // dict.get on a parsed object.
  function Get(fields: seq<Field>, key: string): Option<Json> {
    if fields == [] then None
    else if fields[0].key == key then Some(fields[0].value)
    else Get(fields[1..], key)
  }

  // isinstance(value, int); Python counts booleans as integers.
  function AsInt(value: Option<Json>): Option<int> {
    match value
    case Some(Int(n)) => Some(n)
    case Some(Bool(b)) => Some(if b then 1 else 0)
    case _ => None
  }

  // value == 1, which Python also answers for true and for 1.0.
  predicate EqualsOne(value: Option<Json>) {
    value == Some(Int(1)) || value == Some(Bool(true)) || value == Some(Float(1.0))
  }

  function AsText(value: Option<Json>): Option<string> {
    match value case Some(Str(s)) => Some(s) case _ => None
  }

  ghost predicate Found(fields: seq<Field>, i: nat)
    requires i < |fields|
  {
    Get(fields, fields[i].key) == Some(fields[i].value)
  }

  // With distinct keys every field is found, and nothing else is.
  lemma {:induction false} GetFinds(fields: seq<Field>)
    requires forall i, j | 0 <= i < j < |fields| :: fields[i].key != fields[j].key
    ensures forall i | 0 <= i < |fields| :: Found(fields, i)
    ensures forall key | Get(fields, key).Some? :: exists i :: 0 <= i < |fields| && fields[i].key == key
  {
    if fields != [] {
      GetFinds(fields[1..]);
      forall i | 0 <= i < |fields| ensures Found(fields, i) {
        assert i > 0 ==> fields[i] == fields[1..][i - 1] && Found(fields[1..], i - 1);
      }
    }
  }

  lemma {:induction false} FieldIsFound(fields: seq<Field>, f: Field)
    requires f in fields
    ensures Get(fields, f.key).Some?
  {
    if fields[0].key != f.key {
      FieldIsFound(fields[1..], f);
    }
  }

  lemma {:induction false} GetAppended(fields: seq<Field>, f: Field, key: string)
    ensures Get(fields + [f], key)
         == if Get(fields, key).Some? then Get(fields, key) else if f.key == key then Some(f.value) else None
  {
    if fields != [] {
      assert (fields + [f])[1..] == fields[1..] + [f];
      GetAppended(fields[1..], f, key);
    } else {
      assert [f][1..] == [] && fields + [f] == [f];
    }
  }
}
