/** JSON values as the parser delivers them; object fields keep their key order. */
module JsonValues {
  import opened Wrappers

  datatype Json =
    | Null
    | Bool(b: bool)
    | Int(i: int)
    | Float(r: real)
    | Str(s: string)
    | Arr(items: seq<Json>)
    | Obj(fields: seq<(string, Json)>)

  /** The value of a key, None when `j` is no object or lacks the key. */
  function Get(j: Json, key: string): (r: Option<Json>)
    ensures r.Some? ==> r.value < j
  {
    if j.Obj? then Find(j.fields, key) else None
  }

  function Find(fields: seq<(string, Json)>, key: string): (r: Option<Json>)
    ensures r.Some? ==> exists k :: 0 <= k < |fields| && fields[k] == (key, r.value)
    ensures r.None? ==> forall k :: 0 <= k < |fields| ==> fields[k].0 != key
  {
    if fields == [] then None
    else if fields[0].0 == key then Some(fields[0].1)
    else Find(fields[1..], key)
  }

  /** operator==: numbers compare by value across kinds, everything else member by member. */
  predicate JsonEq(a: Json, b: Json) {
    match (a, b)
    case (Int(x), Float(y)) => x as real == y
    case (Float(x), Int(y)) => x == y as real
    case (Arr(xs), Arr(ys)) => |xs| == |ys| && forall k :: 0 <= k < |xs| ==> JsonEq(xs[k], ys[k])
    case (Obj(xs), Obj(ys)) =>
      |xs| == |ys| && forall k :: 0 <= k < |xs| ==> xs[k].0 == ys[k].0 && JsonEq(xs[k].1, ys[k].1)
    case _ => a == b
  }

  /** The value with every integer as the real number it is. */
  function Norm(j: Json): Json {
    match j
    case Int(i) => Float(i as real)
    case Arr(xs) => Arr(seq(|xs|, k requires 0 <= k < |xs| => Norm(xs[k])))
    case Obj(fs) => Obj(seq(|fs|, k requires 0 <= k < |fs| => (assert fs[k].1 < j; (fs[k].0, Norm(fs[k].1)))))
    case _ => j
  }

  /** Two values are equal exactly when they are one once numbers are taken as numbers. */
  lemma {:induction false} JsonEqIff(a: Json, b: Json)
    ensures JsonEq(a, b) <==> Norm(a) == Norm(b)
  {
    match (a, b)
    case (Arr(xs), Arr(ys)) =>
      if |xs| == |ys| {
        forall k | 0 <= k < |xs| ensures JsonEq(xs[k], ys[k]) <==> Norm(xs[k]) == Norm(ys[k]) {
          JsonEqIff(xs[k], ys[k]);
        }
        var ns, ms := Norm(a).items, Norm(b).items;
        assert forall k :: 0 <= k < |xs| ==> ns[k] == Norm(xs[k]) && ms[k] == Norm(ys[k]);
        assert ns == ms <==> forall k :: 0 <= k < |xs| ==> ns[k] == ms[k];
      } else {
        assert |Norm(a).items| != |Norm(b).items|;
      }
    case (Obj(xs), Obj(ys)) =>
      if |xs| == |ys| {
        forall k | 0 <= k < |xs| ensures JsonEq(xs[k].1, ys[k].1) <==> Norm(xs[k].1) == Norm(ys[k].1) {
          assert xs[k].1 < a && ys[k].1 < b;
          JsonEqIff(xs[k].1, ys[k].1);
        }
        var ns, ms := Norm(a).fields, Norm(b).fields;
        assert forall k :: 0 <= k < |xs| ==> ns[k] == (xs[k].0, Norm(xs[k].1)) && ms[k] == (ys[k].0, Norm(ys[k].1));
        assert ns == ms <==> forall k :: 0 <= k < |xs| ==> ns[k] == ms[k];
      } else {
        assert |Norm(a).fields| != |Norm(b).fields|;
      }
    case _ =>
  }
}
