/**
 * A JavaScript plain object used as a string-keyed dictionary. `Object.keys` and `for ... in`
 * visit the keys in insertion order, so a dictionary is its key sequence plus a map from keys to values.
 */
module Dict {

  datatype RawDict<V> = RawDict(keys: seq<string>, vals: map<string, V>)

  /** Each key occurs once in the order, and the order lists exactly the keys of the map. */
  ghost predicate Valid<V>(d: RawDict<V>) {
    && (forall i, j :: 0 <= i < j < |d.keys| ==> d.keys[i] != d.keys[j])
    && (forall k :: k in d.vals <==> k in d.keys)
  }

  type Dict<V> = d: RawDict<V> | Valid(d) witness RawDict([], map[])

  /** `{}` */
  function Empty<V>(): Dict<V> {
    RawDict([], map[])
  }

  /** `obj[k] = v`: an existing key keeps its place, a new key goes last. */
  function Put<V>(d: Dict<V>, k: string, v: V): Dict<V> {
    if k in d.vals then RawDict(d.keys, d.vals[k := v]) else RawDict(d.keys + [k], d.vals[k := v])
  }

  /** The sum of `f` over the values of the listed keys. */
  function SumOver<V>(keys: seq<string>, vals: map<string, V>, f: V -> int): int
    requires forall k :: k in keys ==> k in vals
  {
    if keys == [] then 0 else f(vals[keys[0]]) + SumOver(keys[1..], vals, f)
  }

  /** Changing the value of a key that is not listed leaves the sum alone. */
  lemma {:induction false} SumOverUnlisted<V>(keys: seq<string>, vals: map<string, V>, f: V -> int, k: string, v: V)
    requires forall x :: x in keys ==> x in vals
    requires k !in keys
    ensures SumOver(keys, vals[k := v], f) == SumOver(keys, vals, f)
  {
    if keys != [] {
      SumOverUnlisted(keys[1..], vals, f, k, v);
    }
  }

  /** Changing the value of a key listed once changes the sum by the difference. */
  lemma {:induction false} SumOverListed<V>(keys: seq<string>, vals: map<string, V>, f: V -> int, k: string, v: V)
    requires forall x :: x in keys ==> x in vals
    requires forall i, j :: 0 <= i < j < |keys| ==> keys[i] != keys[j]
    requires k in keys
    ensures SumOver(keys, vals[k := v], f) == SumOver(keys, vals, f) - f(vals[k]) + f(v)
  {
    if keys[0] == k {
      assert k !in keys[1..] by {
        forall i | 0 <= i < |keys[1..]| ensures keys[1..][i] != k {
          assert keys[1..][i] == keys[i + 1];
        }
      }
      SumOverUnlisted(keys[1..], vals, f, k, v);
    } else {
      SumOverListed(keys[1..], vals, f, k, v);
    }
  }

  /** Appending a key adds its value to the sum. */
  lemma {:induction false} SumOverAppend<V>(keys: seq<string>, vals: map<string, V>, f: V -> int, k: string)
    requires forall x :: x in keys ==> x in vals
    requires k in vals
    ensures SumOver(keys + [k], vals, f) == SumOver(keys, vals, f) + f(vals[k])
  {
    if keys == [] {
      assert keys + [k] == [k];
    } else {
      assert (keys + [k])[1..] == keys[1..] + [k];
      SumOverAppend(keys[1..], vals, f, k);
    }
  }

  /** The sum of `f` over all values of `d`. */
  function Sum<V>(d: Dict<V>, f: V -> int): int {
    SumOver(d.keys, d.vals, f)
  }

  /** `obj[k] = v` changes the sum of `f` by `f(v)` less the value it replaces, or by `f(v)` for a new key. */
  lemma SumPut<V>(d: Dict<V>, f: V -> int, k: string, v: V)
    ensures Sum(Put(d, k, v), f) == Sum(d, f) + f(v) - (if k in d.vals then f(d.vals[k]) else 0)
  {
    if k in d.vals {
      SumOverListed(d.keys, d.vals, f, k, v);
    } else {
      SumOverUnlisted(d.keys, d.vals, f, k, v);
      SumOverAppend(d.keys, d.vals[k := v], f, k);
    }
  }
}
