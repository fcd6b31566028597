/**
 * A Python `dict` with string keys: a table that remembers the order in which keys
 * were first inserted. Assigning to a present key keeps its position; the
 * `defaultdict` read of a missing key inserts the default at the end.
 */
module OrderedDict {
  import opened Wrappers

  datatype Dict<V> = Dict(order: seq<string>, values: map<string, V>) {

    /** Every key appears once in `order`, and `order` lists exactly the keys. */
    ghost predicate Valid() {
      && (forall i, j :: 0 <= i < j < |order| ==> order[i] != order[j])
      && (forall k :: k in values <==> k in order)
    }
  }

  function Empty<V>(): (d: Dict<V>)
    ensures d.Valid() && d.values == map[]
  {
    Dict([], map[])
  }

  /** `d[k] = v`. */
  function Put<V>(d: Dict<V>, k: string, v: V): (r: Dict<V>)
    requires d.Valid()
    ensures r.Valid()
    ensures r.values == d.values[k := v]
    ensures k in d.values ==> r.order == d.order
    ensures k !in d.values ==> r.order == d.order + [k]
  {
    if k in d.values then Dict(d.order, d.values[k := v])
    else Dict(d.order + [k], d.values[k := v])
  }

  /** What a `defaultdict` read of `k` returns. */
  function Get<V>(d: Dict<V>, k: string, default: V): V {
    if k in d.values then d.values[k] else default
  }

  /** The `defaultdict` read of `k` leaves this table behind: the key is now present. */
  function Touch<V>(d: Dict<V>, k: string, default: V): (r: Dict<V>)
    requires d.Valid()
    ensures r.Valid()
    ensures k in r.values && r.values[k] == Get(d, k, default)
    ensures forall j :: j != k ==> (j in r.values <==> j in d.values)
    ensures forall j :: j in d.values ==> j in r.values && r.values[j] == d.values[j]
  {
    if k in d.values then d else Put(d, k, default)
  }

  /** Assigning a key just read through the default leaves what assigning it directly leaves. */
  lemma PutAfterTouch<V>(d: Dict<V>, k: string, default: V, v: V)
    requires d.Valid()
    ensures Put(Touch(d, k, default), k, v) == Put(d, k, v)
  {
    if k !in d.values {
      assert d.values[k := default][k := v] == d.values[k := v];
    }
  }

  /** Assigns each pair in turn: `for k, v in items: d[k] = v`. */
  function PutAll<V>(d: Dict<V>, items: seq<(string, V)>): (r: Dict<V>)
    requires d.Valid()
    ensures r.Valid()
    decreases |items|
  {
    if items == [] then d
    else Put(PutAll(d, items[..|items| - 1]), items[|items| - 1].0, items[|items| - 1].1)
  }

  /** One more assignment after the first `i`. */
  lemma PutAllStep<V>(d: Dict<V>, items: seq<(string, V)>, i: nat)
    requires d.Valid() && i < |items|
    ensures PutAll(d, items[..i + 1]) == Put(PutAll(d, items[..i]), items[i].0, items[i].1)
  {
    assert items[..i + 1][..i] == items[..i];
  }

  predicate KeysDistinct<V>(items: seq<(string, V)>) {
    forall i, j :: 0 <= i < j < |items| ==> items[i].0 != items[j].0
  }

  /** `k` is one of the keys assigned by `items`. */
  predicate Listed<V>(items: seq<(string, V)>, k: string) {
    exists i :: 0 <= i < |items| && items[i].0 == k
  }

  /** A key the list does not assign keeps what it had, present or absent. */
  lemma {:induction false} PutAllUnlisted<V>(d: Dict<V>, items: seq<(string, V)>, k: string)
    requires d.Valid() && !Listed(items, k)
    ensures k in PutAll(d, items).values <==> k in d.values
    ensures k in d.values ==> PutAll(d, items).values[k] == d.values[k]
    decreases |items|
  {
    if items != [] {
      var init := items[..|items| - 1];
      forall i | 0 <= i < |init| ensures init[i].0 != k {
        assert init[i] == items[i];
      }
      assert items[|items| - 1].0 != k;
      PutAllUnlisted(d, init, k);
    }
  }

  /** With distinct keys, the `i`-th pair's key ends up holding its value. */
  lemma {:induction false} PutAllListed<V>(d: Dict<V>, items: seq<(string, V)>, i: nat)
    requires d.Valid() && KeysDistinct(items) && i < |items|
    ensures items[i].0 in PutAll(d, items).values && PutAll(d, items).values[items[i].0] == items[i].1
    decreases |items|
  {
    var init := items[..|items| - 1];
    if i < |items| - 1 {
      assert KeysDistinct(init) by {
        forall a, b | 0 <= a < b < |init| ensures init[a].0 != init[b].0 {
          assert init[a] == items[a] && init[b] == items[b];
        }
      }
      assert init[i] == items[i];
      assert items[i].0 != items[|items| - 1].0;
      PutAllListed(d, init, i);
    }
  }

  /**
   * Assigning a list of distinct keys: each listed key ends up holding its own
   * value, and every other key keeps what it had (present or absent).
   */
  lemma PutAllSpec<V>(d: Dict<V>, items: seq<(string, V)>)
    requires d.Valid()
    requires KeysDistinct(items)
    ensures forall i :: 0 <= i < |items| ==>
              items[i].0 in PutAll(d, items).values && PutAll(d, items).values[items[i].0] == items[i].1
    ensures forall k :: !Listed(items, k) ==>
              (k in PutAll(d, items).values <==> k in d.values)
              && (k in d.values ==> PutAll(d, items).values[k] == d.values[k])
  {
    forall i | 0 <= i < |items|
      ensures items[i].0 in PutAll(d, items).values && PutAll(d, items).values[items[i].0] == items[i].1
    {
      PutAllListed(d, items, i);
    }
    forall k | !Listed(items, k)
      ensures (k in PutAll(d, items).values <==> k in d.values)
              && (k in d.values ==> PutAll(d, items).values[k] == d.values[k])
    {
      PutAllUnlisted(d, items, k);
    }
  }

  /** `{k: f(d[k]) for k in keys}`, built in the order of `keys`. */
  function MapValues<V>(d: Dict<V>, keys: seq<string>, f: V -> V): (r: Dict<V>)
    requires forall i :: 0 <= i < |keys| ==> keys[i] in d.values
    ensures r.Valid()
    decreases |keys|
  {
    if keys == [] then Empty()
    else
      var last := keys[|keys| - 1];
      Put(MapValues(d, keys[..|keys| - 1], f), last, f(d.values[last]))
  }

  /** One more key after the first `i`. */
  lemma MapValuesStep<V>(d: Dict<V>, keys: seq<string>, f: V -> V, i: nat)
    requires i < |keys| && forall j :: 0 <= j < |keys| ==> keys[j] in d.values
    ensures MapValues(d, keys[..i + 1], f) == Put(MapValues(d, keys[..i], f), keys[i], f(d.values[keys[i]]))
  {
    assert keys[..i + 1][..i] == keys[..i];
  }

  /** Each mapped key holds `f` of its value in `d`. */
  lemma {:induction false} MapValuesValues<V>(d: Dict<V>, keys: seq<string>, f: V -> V)
    requires forall i :: 0 <= i < |keys| ==> keys[i] in d.values
    ensures forall k :: k in MapValues(d, keys, f).values ==> k in d.values && MapValues(d, keys, f).values[k] == f(d.values[k])
    decreases |keys|
  {
    if keys != [] {
      var init := keys[..|keys| - 1];
      assert forall i :: 0 <= i < |init| ==> init[i] == keys[i];
      MapValuesValues(d, init, f);
    }
  }

  /** Distinct keys are entered in their own order, and no other key is. */
  lemma {:induction false} MapValuesKeys<V>(d: Dict<V>, keys: seq<string>, f: V -> V)
    requires forall i, j :: 0 <= i < j < |keys| ==> keys[i] != keys[j]
    requires forall i :: 0 <= i < |keys| ==> keys[i] in d.values
    ensures MapValues(d, keys, f).order == keys
    ensures forall k :: k in MapValues(d, keys, f).values <==> k in keys
    decreases |keys|
  {
    if keys != [] {
      var init := keys[..|keys| - 1];
      var last := keys[|keys| - 1];
      assert forall i :: 0 <= i < |init| ==> init[i] == keys[i];
      MapValuesKeys(d, init, f);
      forall j | 0 <= j < |init| ensures init[j] != last {
        assert init[j] == keys[j];
      }
      SplitLast(keys);
    }
  }

  /** Mapping over the keys of a table in its order: the same keys in the same order, each holding `f` of its value. */
  lemma MapValuesSpec<V>(d: Dict<V>, keys: seq<string>, f: V -> V)
    requires forall i, j :: 0 <= i < j < |keys| ==> keys[i] != keys[j]
    requires forall i :: 0 <= i < |keys| ==> keys[i] in d.values
    ensures MapValues(d, keys, f).order == keys
    ensures forall k :: k in MapValues(d, keys, f).values <==> k in keys
    ensures forall k :: k in MapValues(d, keys, f).values ==> MapValues(d, keys, f).values[k] == f(d.values[k])
  {
    MapValuesKeys(d, keys, f);
    MapValuesValues(d, keys, f);
  }
}
