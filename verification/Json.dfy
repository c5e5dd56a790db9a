/**
  JSON values as trees.  A stored text is represented by the tree it denotes;
  numbers are integers, which is all this program writes.
 */
module Json {
  import opened Basics
  import Float64

  datatype Json =
    | JNull
    | JNum(num: int)
    | JStr(str: Text)
    | JArr(items: seq<Json>)
    | JObj(fields: map<Text, Json>)

  /** Unmarshalling into interface{}: the same tree with every number turned into a float64. */
  function Generic(j: Json): Json
  {
    match j
    case JNull => JNull
    case JNum(n) => JNum(Float64.NearestInt(n))
    case JStr(s) => JStr(s)
    case JArr(items) => JArr(seq(|items|, i requires 0 <= i < |items| => Generic(items[i])))
    case JObj(fields) => JObj(map k | k in fields :: Generic(fields[k]))
  }

  /** A number becomes a nearest float64, of the same sign; a list or an object is converted part by part. */
  lemma GenericParts(n: nat, items: seq<Json>, fields: map<Text, Json>)
    ensures Generic(JNum(n)).JNum? && Generic(JNum(n)).num >= 0
    ensures Float64.IsNearest(n, Pow2(Float64.Excess(n)), Generic(JNum(n)).num)
    ensures Generic(JNum(0 - n)) == JNum(0 - Generic(JNum(n)).num)
    ensures Generic(JArr(items)).JArr? && |Generic(JArr(items)).items| == |items|
    ensures forall i :: 0 <= i < |items| ==> Generic(JArr(items)).items[i] == Generic(items[i])
    ensures Generic(JObj(fields)).JObj? && Generic(JObj(fields)).fields.Keys == fields.Keys
    ensures forall k :: k in fields ==> Generic(JObj(fields)).fields[k] == Generic(fields[k])
  {
    Float64.NearestIsNearest(n);
  }

  lemma NumIdempotent(n: int)
    ensures Float64.NearestInt(Float64.NearestInt(n)) == Float64.NearestInt(n)
  {
    if n < 0 {
      Float64.NearestIdempotent(-n);
    } else {
      Float64.NearestIdempotent(n);
    }
  }

  /** A second trip through interface{} is the identity. */
  lemma {:induction false} GenericIdempotent(j: Json)
    ensures Generic(Generic(j)) == Generic(j)
  {
    match j
    case JNull =>
    case JStr(_) =>
    case JNum(n) => NumIdempotent(n);
    case JArr(items) =>
      forall i | 0 <= i < |items|
        ensures Generic(Generic(items[i])) == Generic(items[i])
      {
        GenericIdempotent(items[i]);
      }
      assert Generic(Generic(j)).items == Generic(j).items;
    case JObj(fields) =>
      forall k | k in fields
        ensures Generic(Generic(fields[k])) == Generic(fields[k])
      {
        GenericIdempotent(fields[k]);
      }
      assert Generic(Generic(j)).fields == Generic(j).fields;
  }
}
