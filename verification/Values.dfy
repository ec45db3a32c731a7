/** Result values, compared the way the program compares them. */
module Values {

  datatype Value =
    | Null
    | Bool(b: bool)
    | Int(n: int)
    | Real(x: real)
    | Text(s: string)
    | Array(items: seq<Value>)
    | Object(fields: map<string, Value>)
  {
    predicate IsNumber() { Bool? || Int? || Real? }

    /** Truth values count as 0 and 1, and numbers of different types compare by value. */
    function Number(): real
      requires IsNumber()
    {
      match this
      case Bool(b) => if b then 1.0 else 0.0
      case Int(n) => n as real
      case Real(x) => x
    }

    predicate Hashable() { !Array? && !Object? }
  }

  /** A result row, wrapped so that rows can be counted and compared. */
  datatype Record = Record(fields: map<string, Value>)

  /** `a == b`. */
  predicate Equal(a: Value, b: Value) {
    if a.IsNumber() && b.IsNumber() then a.Number() == b.Number()
    else if a.Array? && b.Array? then
      |a.items| == |b.items| && forall i :: 0 <= i < |a.items| ==> Equal(a.items[i], b.items[i])
    else if a.Object? && b.Object? then
      a.fields.Keys == b.fields.Keys && forall f :: f in a.fields ==> Equal(a.fields[f], b.fields[f])
    else a == b
  }

  /** The number a value stands for: false is 0, true is 1. */
  ghost predicate Worth(v: Value, x: real) {
    || (v == Bool(false) && x == 0.0) || (v == Bool(true) && x == 1.0)
    || (v.Int? && x == v.n as real) || (v.Real? && x == v.x)
  }

  /** Equal values are worth the same number, are lists equal place by place or objects equal field by
      field, or are the same null or text. */
  lemma EqualIff(a: Value, b: Value)
    ensures Equal(a, b) <==>
            || (exists x :: Worth(a, x) && Worth(b, x))
            || (a.Array? && b.Array? && |a.items| == |b.items|
                && forall i :: 0 <= i < |a.items| ==> Equal(a.items[i], b.items[i]))
            || (a.Object? && b.Object? && (forall f :: f in a.fields <==> f in b.fields)
                && forall f :: f in a.fields ==> Equal(a.fields[f], b.fields[f]))
            || ((a.Null? || a.Text?) && a == b)
  {
    if a.IsNumber() && b.IsNumber() {
      assert Worth(a, a.Number()) && Worth(b, b.Number());
    }
    if a.Object? && b.Object? {
      assert a.fields.Keys == b.fields.Keys <==> forall f :: f in a.fields <==> f in b.fields;
    }
  }

  lemma {:induction false} EqualReflexive(a: Value)
    ensures Equal(a, a)
  {
    match a
    case Array(items) =>
      forall i | 0 <= i < |items| ensures Equal(items[i], items[i]) {
        EqualReflexive(items[i]);
      }
    case Object(fields) =>
      forall f | f in fields ensures Equal(fields[f], fields[f]) {
        EqualReflexive(fields[f]);
      }
    case _ =>
  }

  lemma {:induction false} EqualEuclidean(a: Value, b: Value, c: Value)
    requires Equal(a, b) && Equal(a, c)
    ensures Equal(b, c)
  {
    match a
    case Array(items) =>
      forall i | 0 <= i < |items| ensures Equal(b.items[i], c.items[i]) {
        EqualEuclidean(items[i], b.items[i], c.items[i]);
      }
    case Object(fields) =>
      forall f | f in fields ensures Equal(b.fields[f], c.fields[f]) {
        EqualEuclidean(fields[f], b.fields[f], c.fields[f]);
      }
    case _ =>
  }

  /** What a hash table files a hashable value under. */
  function HashKey(v: Value): Value {
    if v.IsNumber() then Real(v.Number()) else v
  }

  /** Hashable values share a table entry exactly when they are equal. */
  lemma HashKeyIffEqual(a: Value, b: Value)
    requires a.Hashable() && b.Hashable()
    ensures HashKey(a) == HashKey(b) <==> Equal(a, b)
  {
  }
}
