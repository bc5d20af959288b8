/** A plain JavaScript object used as a dictionary with string keys, such as the
    admin page's `counts` and `byCat`: its own properties, in insertion order. */
module JsObject {

  datatype Prop<V> = Prop(key: string, value: V)

  type Obj<V> = seq<Prop<V>>

  /** `Object.keys(o)`. */
  function Keys<V>(o: Obj<V>): (ks: seq<string>)
    ensures |ks| == |o|
    ensures forall i :: 0 <= i < |o| ==> ks[i] == o[i].key
  {
    if o == [] then [] else [o[0].key] + Keys(o[1..])
  }

  /** `o.hasOwnProperty(k)`. */
  predicate Has<V>(o: Obj<V>, k: string) {
    o != [] && (o[0].key == k || Has(o[1..], k))
  }

  /** A key is present exactly when `Object.keys` lists it. */
  lemma {:induction false} HasKeys<V>(o: Obj<V>, k: string)
    ensures Has(o, k) <==> k in Keys(o)
  {
    if o != [] {
      HasKeys(o[1..], k);
      assert Keys(o) == [o[0].key] + Keys(o[1..]);
    }
  }

  /** Each key names one property. */
  predicate DistinctKeys<V>(o: Obj<V>) {
    forall i, j :: 0 <= i < j < |o| ==> o[i].key != o[j].key
  }

  /** `o[k]` for a key that is present. */
  function Get<V>(o: Obj<V>, k: string): V
    requires Has(o, k)
  {
    if o[0].key == k then o[0].value else Get(o[1..], k)
  }

  /** `o[k] = v`: updates the property in place, or appends it when new. */
  function Set<V>(o: Obj<V>, k: string, v: V): (r: Obj<V>)
    ensures forall k' :: Has(r, k') <==> Has(o, k') || k' == k
  {
    if o == [] then [Prop(k, v)]
    else if o[0].key == k then [Prop(k, v)] + o[1..]
    else [o[0]] + Set(o[1..], k, v)
  }

  /** `o[k] = v` keeps the order of the keys and appends a new one at the end. */
  lemma {:induction false} KeysSet<V>(o: Obj<V>, k: string, v: V)
    ensures Keys(Set(o, k, v)) == if Has(o, k) then Keys(o) else Keys(o) + [k]
  {
    if o != [] {
      var r := Set(o, k, v);
      assert Keys(o) == [o[0].key] + Keys(o[1..]);
      assert Keys(r) == [r[0].key] + Keys(r[1..]);
      if o[0].key != k {
        KeysSet(o[1..], k, v);
        assert r[1..] == Set(o[1..], k, v);
      }
    }
  }

  /** After `o[k] = v`, `o[k]` is `v`. */
  lemma {:induction false} GetSetSame<V>(o: Obj<V>, k: string, v: V)
    ensures Has(Set(o, k, v), k) && Get(Set(o, k, v), k) == v
  {
    if o != [] && o[0].key != k {
      GetSetSame(o[1..], k, v);
      assert Set(o, k, v)[1..] == Set(o[1..], k, v);
    }
  }

  /** After `o[k] = v`, every other key keeps its value. */
  lemma {:induction false} GetSetOther<V>(o: Obj<V>, k: string, v: V, k': string)
    requires k' != k && Has(o, k')
    ensures Get(Set(o, k, v), k') == Get(o, k')
  {
    if o[0].key != k && o[0].key != k' {
      GetSetOther(o[1..], k, v, k');
      assert Set(o, k, v)[1..] == Set(o[1..], k, v);
    }
  }

  /** `o[k] = v` never creates a second property with the same key. */
  lemma SetDistinct<V>(o: Obj<V>, k: string, v: V)
    requires DistinctKeys(o)
    ensures DistinctKeys(Set(o, k, v))
  {
    var r := Set(o, k, v);
    KeysSet(o, k, v);
    HasKeys(o, k);
    assert forall i, j :: 0 <= i < j < |r| ==> Keys(r)[i] != Keys(r)[j];
  }

  /** The sum of a measure of the values. */
  function SumBy<V>(o: Obj<V>, f: V -> nat): nat {
    if o == [] then 0 else f(o[0].value) + SumBy(o[1..], f)
  }

  /** `o[k] = v` trades the measure of the old value of `k` (none when `k` is new)
      for that of `v`. */
  lemma {:induction false} SumBySet<V>(o: Obj<V>, k: string, v: V, f: V -> nat)
    ensures SumBy(Set(o, k, v), f) + (if Has(o, k) then f(Get(o, k)) else 0) == SumBy(o, f) + f(v)
  {
    if o != [] {
      var r := Set(o, k, v);
      if o[0].key == k {
        assert r[1..] == o[1..];
      } else {
        assert r[1..] == Set(o[1..], k, v);
        SumBySet(o[1..], k, v, f);
      }
    }
  }
}
