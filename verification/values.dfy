/** Field values of request bodies and stored documents, with the two pieces of
    semantics the handlers rely on: JavaScript truthiness and the equality
    condition of a MongoDB filter. */
module Values {

  /** A scalar JSON field value (objects and arrays are not modelled).
      `Undefined` is a field the body or the document does not have at all. Numbers are integers: no handler in this model depends on
      fractional amounts. */
  datatype Value = Undefined | Null | Bool(b: bool) | Num(n: int) | Str(s: string)

  /** JavaScript truthiness: `undefined`, `null`, `false`, `0` and `""` are falsy. */
  predicate Truthy(v: Value) {
    match v
    case Undefined => false
    case Null => false
    case Bool(b) => b
    case Num(n) => n != 0
    case Str(s) => s != ""
  }

  /** JavaScript `!v`: always a boolean, the negation of `v`'s truthiness. */
  function Not(v: Value): (r: Value)
    ensures r.Bool?
    ensures r.b <==> !Truthy(v)
    ensures Truthy(r) != Truthy(v)
  {
    Bool(!Truthy(v))
  }

  predicate Nullish(v: Value) {
    v == Undefined || v == Null
  }

  /** What the database driver stores or sends for a JavaScript value: an
      `undefined` inside a query or a `$set` is serialised as `null`. */
  function Serialized(v: Value): (r: Value)
    ensures r != Undefined
    ensures Nullish(r) <==> Nullish(v)
    ensures !Nullish(v) ==> r == v
  {
    if v == Undefined then Null else v
  }

  /** The filter condition `{ field: q }`: a null (or undefined) condition
      matches a document whose field is null or missing; any other condition
      matches an equal value only. */
  predicate FieldMatches(field: Value, q: Value) {
    if Nullish(q) then Nullish(field) else field == q
  }

  /** Matching a filter condition is equality after serialisation, so it is an
      equivalence: reflexive, symmetric and transitive. */
  lemma FieldMatchesIsSerializedEquality(a: Value, b: Value)
    ensures FieldMatches(a, b) <==> Serialized(a) == Serialized(b)
    ensures FieldMatches(a, a)
    ensures FieldMatches(a, b) <==> FieldMatches(b, a)
  {
  }
}
