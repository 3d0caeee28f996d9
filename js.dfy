/** The JavaScript values the route handlers receive in a JSON body, with the
    language's truthiness and strict equality, and the plain object used as a
    string-keyed dictionary by the pages. */
module Js {

  import opened Wrappers
  import Lists

  /** A JSON-decoded value; a field missing from the body reads as `Undefined`. */
  datatype Value = Undefined | Null | Bool(b: bool) | Num(n: int) | Str(s: string)
                 | Arr(elems: seq<Value>) | Obj(fields: map<string, Value>)

  /** Truthiness, as tested by `!x`: `undefined`, `null`, `false`, `0` and
      `""` are falsy; every array and object, even an empty one, is truthy. */
  predicate Truthy(v: Value) {
    match v
    case Undefined => false
    case Null => false
    case Bool(b) => b
    case Num(n) => n != 0
    case Str(s) => s != ""
    case Arr(_) => true
    case Obj(_) => true
  }

  /** `a === b`: primitives compare by value; two arrays or objects decoded
      from JSON are distinct objects and never compare equal. */
  predicate StrictEquals(a: Value, b: Value) {
    match (a, b)
    case (Undefined, Undefined) => true
    case (Null, Null) => true
    case (Bool(x), Bool(y)) => x == y
    case (Num(x), Num(y)) => x == y
    case (Str(x), Str(y)) => x == y
    case _ => false
  }

  /** `const { name } = body`: the field of an object, `undefined` for a
      missing field or for a primitive or array body; destructuring `null`
      throws, which is `None`. */
  function Field(body: Value, name: string): (r: Option<Value>)
    ensures r.None? <==> body.Null? || body.Undefined?
  {
    match body
    case Null => None
    case Undefined => None
    case Obj(fields) => Some(if name in fields then fields[name] else Undefined)
    case _ => Some(Undefined)
  }

  /** A plain object used as a dictionary: its keys in insertion order and the
      value held under each key. */
  datatype Record<V> = Record(keys: seq<string>, values: map<string, V>)

  ghost predicate Valid<V>(r: Record<V>) {
    && (forall i, j :: 0 <= i < j < |r.keys| ==> r.keys[i] != r.keys[j])
    && (forall k :: k in r.values <==> k in r.keys)
  }

  /** `{}` */
  function Empty<V>(): (r: Record<V>)
    ensures Valid(r) && r.keys == []
  {
    Record([], map[])
  }

  /** `obj[k]`, with `undefined` for a missing key. */
  function Get<V>(r: Record<V>, k: string): Option<V> {
    if k in r.values then Some(r.values[k]) else None
  }

  /** `obj[k] = v` on a copy: an existing key keeps its place, a new key goes last. */
  function Set<V>(r: Record<V>, k: string, v: V): (r': Record<V>)
    requires Valid(r)
    ensures Valid(r')
    ensures Get(r', k) == Some(v)
    ensures forall k' :: k' != k ==> Get(r', k') == Get(r, k')
    ensures r'.keys == if k in r.keys then r.keys else r.keys + [k]
  {
    if k in r.values then Record(r.keys, r.values[k := v]) else Record(r.keys + [k], r.values[k := v])
  }

  /** `delete obj[k]` on a copy: the key leaves, the other keys keep their order. */
  function Delete<V>(r: Record<V>, k: string): (r': Record<V>)
    requires Valid(r)
    ensures Valid(r')
    ensures Get(r', k) == None
    ensures forall k' :: k' != k ==> Get(r', k') == Get(r, k')
    ensures r'.keys == Lists.Filter(r.keys, x => x != k)
  {
    var keys := Lists.Filter(r.keys, x => x != k);
    FilterKeepsDistinct(r.keys, k);
    Record(keys, r.values - {k})
  }

  lemma {:induction false} FilterKeepsDistinct(keys: seq<string>, k: string)
    requires forall i, j :: 0 <= i < j < |keys| ==> keys[i] != keys[j]
    ensures var f := Lists.Filter(keys, x => x != k);
      (forall i, j :: 0 <= i < j < |f| ==> f[i] != f[j]) && (forall x :: x in f <==> x in keys && x != k)
    decreases |keys|
  {
    if keys != [] {
      FilterKeepsDistinct(keys[1..], k);
      var rest := Lists.Filter(keys[1..], x => x != k);
      assert keys[0] !in keys[1..];
      assert forall x :: x in rest ==> x in keys[1..];
    }
  }

  /** `delete obj[k]` for a key the object does not hold leaves it as it was. */
  lemma DeleteAbsent<V>(r: Record<V>, k: string)
    requires Valid(r) && k !in r.keys
    ensures Delete(r, k) == r
  {
    Lists.FilterAll(r.keys, x => x != k);
    assert r.values - {k} == r.values;
  }

  /** What entry `k` adds to a `reduce` over the entries: nothing when it is absent. */
  function At<V>(m: map<string, V>, k: string, f: (string, V) -> int): int {
    if k in m then f(k, m[k]) else 0
  }

  /** `Object.entries(obj).reduce((acc, [k, v]) => acc + f(k, v), 0)` over the keys `keys`. */
  function Sum<V>(keys: seq<string>, m: map<string, V>, f: (string, V) -> int): int
    decreases |keys|
  {
    if keys == [] then 0 else At(m, keys[0], f) + Sum(keys[1..], m, f)
  }

  /** The sum of an object's entries, in its own key order. */
  function SumEntries<V>(r: Record<V>, f: (string, V) -> int): int {
    Sum(r.keys, r.values, f)
  }

  lemma {:induction false} SumFrame<V>(keys: seq<string>, m: map<string, V>, m': map<string, V>, f: (string, V) -> int)
    requires forall x :: x in keys ==> At(m, x, f) == At(m', x, f)
    ensures Sum(keys, m, f) == Sum(keys, m', f)
    decreases |keys|
  {
    if keys != [] {
      SumFrame(keys[1..], m, m', f);
    }
  }

  lemma {:induction false} SumAppend<V>(a: seq<string>, b: seq<string>, m: map<string, V>, f: (string, V) -> int)
    ensures Sum(a + b, m, f) == Sum(a, m, f) + Sum(b, m, f)
    decreases |a|
  {
    if a == [] {
      assert a + b == b;
    } else {
      assert (a + b)[0] == a[0];
      assert (a + b)[1..] == a[1..] + b;
      SumAppend(a[1..], b, m, f);
    }
  }

  lemma {:induction false} SumUpdate<V>(keys: seq<string>, m: map<string, V>, k: string, v: V, f: (string, V) -> int)
    requires forall i, j :: 0 <= i < j < |keys| ==> keys[i] != keys[j]
    requires k in keys
    ensures Sum(keys, m[k := v], f) == Sum(keys, m, f) - At(m, k, f) + f(k, v)
    decreases |keys|
  {
    if keys[0] == k {
      assert k !in keys[1..];
      SumFrame(keys[1..], m[k := v], m, f);
    } else {
      SumUpdate(keys[1..], m, k, v, f);
    }
  }

  lemma {:induction false} SumRemove<V>(keys: seq<string>, m: map<string, V>, k: string, f: (string, V) -> int)
    requires forall i, j :: 0 <= i < j < |keys| ==> keys[i] != keys[j]
    ensures Sum(Lists.Filter(keys, x => x != k), m - {k}, f)
      == Sum(keys, m, f) - (if k in keys then At(m, k, f) else 0)
    decreases |keys|
  {
    if keys != [] {
      var rest := keys[1..];
      SumRemove(rest, m, k, f);
      if keys[0] == k {
        assert k !in rest;
        Lists.FilterAll(rest, x => x != k);
        SumFrame(rest, m - {k}, m, f);
      } else {
        assert k in keys <==> k in rest;
        var fr := Lists.Filter(rest, x => x != k);
        assert ([keys[0]] + fr)[1..] == fr;
      }
    }
  }

  /** Setting a key replaces its share of the sum by the new entry's
      share, whether the key was present or not. */
  lemma SumSet<V>(r: Record<V>, k: string, v: V, f: (string, V) -> int)
    requires Valid(r)
    ensures SumEntries(Set(r, k, v), f) == SumEntries(r, f) - At(r.values, k, f) + f(k, v)
  {
    if k in r.values {
      SumUpdate(r.keys, r.values, k, v, f);
    } else {
      SumAppend(r.keys, [k], r.values[k := v], f);
      SumFrame(r.keys, r.values[k := v], r.values, f);
    }
  }

  /** Deleting a key takes exactly its share out of the sum. */
  lemma SumDelete<V>(r: Record<V>, k: string, f: (string, V) -> int)
    requires Valid(r)
    ensures SumEntries(Delete(r, k), f) == SumEntries(r, f) - At(r.values, k, f)
  {
    SumRemove(r.keys, r.values, k, f);
  }
}
