/**
 * The values `json.loads` produces and Python's `==` on them.  The parser
 * itself is not modelled: callers receive it as a `Parser`, a partial
 * function from text to a value (None where `json.loads` raises).
 */
module Json {
  import opened Common

  /** JSON numbers after parsing: ints and floats compare exactly in Python, so both are reals here. */
  datatype Numeric = Finite(value: real) | PosInf | NegInf | NaN

  datatype Json =
    | Null
    | Bool(b: bool)
    | Number(n: Numeric)
    | Str(s: string)
    | Array(items: seq<Json>)
    | Object(fields: map<string, Json>)

  /** `json.loads`: Some(value), or None when it raises a decoding error. */
  type Parser = string -> Option<Json>

  /** Some booleans occur somewhere inside `j`. */
  predicate HasBool(j: Json) {
    match j
    case Bool(_) => true
    case Array(items) => exists i :: 0 <= i < |items| && HasBool(items[i])
    case Object(fields) => exists k :: k in fields && HasBool(fields[k])
    case _ => false
  }

  /**
   * The value Python's `==` actually compares: `bool` is a subclass of `int`,
   * so `True == 1 == 1.0` and `[False] == [0]`.  Lists compare element-wise and
   * dicts by key set and values, which is structural equality on this form.
   */
  function Canonical(j: Json): (r: Json)
    ensures !HasBool(r)
  {
    match j
    case Bool(b) => Number(Finite(if b then 1.0 else 0.0))
    case Array(items) => Array(seq(|items|, i requires 0 <= i < |items| => Canonical(items[i])))
    case Object(fields) => Object(map k | k in fields :: Canonical(fields[k]))
    case _ => j
  }

  /** `a == b` for two parsed JSON values. */
  predicate PyEqual(a: Json, b: Json) {
    Canonical(a) == Canonical(b)
  }

  /** Values without booleans are already in the compared form. */
  lemma {:induction false} CanonicalOfBoolFree(j: Json)
    requires !HasBool(j)
    ensures Canonical(j) == j
  {
    match j
    case Array(items) =>
      forall i | 0 <= i < |items| ensures Canonical(items[i]) == items[i] {
        CanonicalOfBoolFree(items[i]);
      }
      assert Canonical(j).items == items;
    case Object(fields) =>
      forall k | k in fields ensures Canonical(fields[k]) == fields[k] {
        CanonicalOfBoolFree(fields[k]);
      }
      assert Canonical(j).fields == fields;
    case _ =>
  }

  /** So `PyEqual` on values without booleans is plain structural equality. */
  lemma BoolFreeEquality(a: Json, b: Json)
    requires !HasBool(a) && !HasBool(b)
    ensures PyEqual(a, b) <==> a == b
  {
    CanonicalOfBoolFree(a);
    CanonicalOfBoolFree(b);
  }
}
