/** `equal_fields` of ren_target_verify.py: exact comparison of JSON values, types included. */
module EqualFields {
  datatype Number = Finite(value: real) | Infinite(positive: bool) | NotANumber

  datatype Json =
    | Null | Boolean(b: bool) | Integer(i: int) | Float(f: Number) | Text(s: string)
    | List(items: seq<Json>) | Dict(fields: map<string, Json>)

  /** The value whose fields all compare: the same keys, the same lengths, the same types, and no infinity or NaN. */
  predicate Equal(actual: Json, expected: Json)
    decreases expected
  {
    match expected
    case Dict(fields) =>
      actual.Dict? && actual.fields.Keys == fields.Keys && forall k | k in fields :: Equal(actual.fields[k], fields[k])
    case List(items) =>
      actual.List? && |actual.items| == |items| && forall i | 0 <= i < |items| :: Equal(actual.items[i], items[i])
    case Float(f) => actual.Float? && actual.f == f && actual.f.Finite?
    case _ => actual == expected
  }

  predicate AllFinite(v: Json) {
    match v
    case Dict(fields) => forall k | k in fields :: AllFinite(fields[k])
    case List(items) => forall i | 0 <= i < |items| :: AllFinite(items[i])
    case Float(f) => f.Finite?
    case _ => true
  }

  /** The comparison accepts exactly the identical value, and only a finite one: no mutation goes unseen. */
  lemma {:induction false} EqualIsIdentity(actual: Json, expected: Json)
    ensures Equal(actual, expected) <==> actual == expected && AllFinite(expected)
    decreases expected
  {
    match expected {
      case Dict(fields) =>
        if actual.Dict? && actual.fields.Keys == fields.Keys {
          forall k | k in fields
            ensures Equal(actual.fields[k], fields[k]) <==> actual.fields[k] == fields[k] && AllFinite(fields[k])
          {
            EqualIsIdentity(actual.fields[k], fields[k]);
          }
          if Equal(actual, expected) {
            assert actual.fields == fields;
          }
        }
      case List(items) =>
        if actual.List? && |actual.items| == |items| {
          forall i | 0 <= i < |items|
            ensures Equal(actual.items[i], items[i]) <==> actual.items[i] == items[i] && AllFinite(items[i])
          {
            EqualIsIdentity(actual.items[i], items[i]);
          }
          if Equal(actual, expected) {
            assert actual.items == items;
          }
        }
      case _ =>
    }
  }
}
