/**
 * MapWithDefault (src/MapWithDefault.ts): a JavaScript `Map` whose `get` creates a
 * missing entry with a factory, unless the caller asks for a strict read.
 *
 * The state of a JavaScript `Map` is an `Entries` value: the key/value pairs and the
 * order in which the keys were first inserted (the iteration order).
 */
module DefaultMaps {
  import opened Wrappers

  /** No key occurs twice. */
  predicate Distinct<K(==)>(s: seq<K>) {
    forall i, j :: 0 <= i < j < |s| ==> s[i] != s[j]
  }

  /** The abstract state of a JavaScript `Map`. */
  datatype Entries<K, V> = Entries(values: map<K, V>, order: seq<K>)

  /** The keys of the order are exactly the keys of the map, each once. */
  ghost predicate WellFormed<K(!new), V>(e: Entries<K, V>) {
    && Distinct(e.order)
    && (forall k :: k in e.values <==> k in e.order)
    && |e.values| == |e.order|
  }

  /** `s` with every occurrence of `k` taken out, the rest in its original order. */
  function Without<K(==,!new)>(s: seq<K>, k: K): (r: seq<K>)
    ensures forall x :: x in r <==> x in s && x != k
    ensures k !in s ==> r == s
  {
    if s == [] then []
    else if s[0] == k then Without(s[1..], k)
    else [s[0]] + Without(s[1..], k)
  }

  /** Taking a key out works piecewise, so the keys that remain keep their relative order. */
  lemma {:induction false} WithoutAppend<K(!new)>(a: seq<K>, b: seq<K>, k: K)
    ensures Without(a + b, k) == Without(a, k) + Without(b, k)
  {
    if a == [] {
      assert a + b == b;
    } else {
      assert (a + b)[0] == a[0] && (a + b)[1..] == a[1..] + b;
      WithoutAppend(a[1..], b, k);
    }
  }

  /** Taking out the key at position `j` of a distinct order closes the gap and keeps everything else in place. */
  lemma WithoutAt<K(!new)>(s: seq<K>, j: nat)
    requires Distinct(s) && j < |s|
    ensures Without(s, s[j]) == s[..j] + s[j + 1..]
  {
    DistinctAt(s, j);
    SplitAt(s, j);
    WithoutAround(s[..j], s[j], s[j + 1..]);
  }

  lemma SplitAt<K>(s: seq<K>, j: nat)
    requires j < |s|
    ensures s == s[..j] + [s[j]] + s[j + 1..]
  {
    assert s[j..] == [s[j]] + s[j + 1..];
    assert s == s[..j] + s[j..];
  }

  /** In a distinct sequence the key at `j` occurs neither before nor after position `j`. */
  lemma DistinctAt<K>(s: seq<K>, j: nat)
    requires Distinct(s) && j < |s|
    ensures s[j] !in s[..j] && s[j] !in s[j + 1..]
  {
    var before, after := s[..j], s[j + 1..];
    forall x | x in before ensures x != s[j] {
      var i :| 0 <= i < |before| && before[i] == x;
      assert s[i] == x;
    }
    forall x | x in after ensures x != s[j] {
      var i :| 0 <= i < |after| && after[i] == x;
      assert s[j + 1 + i] == x;
    }
  }

  lemma WithoutAround<K(!new)>(before: seq<K>, k: K, after: seq<K>)
    requires k !in before && k !in after
    ensures Without(before + [k] + after, k) == before + after
  {
    assert Without([k], k) == [] by {
      assert [k][1..] == [];
    }
    WithoutAppend(before + [k], after, k);
    WithoutAppend(before, [k], k);
  }

  /** Deleting from a distinct order keeps it distinct, and removes one position when the key was there. */
  lemma WithoutDistinct<K(!new)>(s: seq<K>, k: K)
    requires Distinct(s)
    ensures Distinct(Without(s, k))
    ensures k in s ==> |Without(s, k)| == |s| - 1
  {
    if k in s {
      var j :| 0 <= j < |s| && s[j] == k;
      WithoutAt(s, j);
      DistinctWithoutPosition(s, j);
    }
  }

  lemma DistinctWithoutPosition<K>(s: seq<K>, j: nat)
    requires Distinct(s) && j < |s|
    ensures Distinct(s[..j] + s[j + 1..])
  {
    var r := s[..j] + s[j + 1..];
    forall a, b | 0 <= a < b < |r| ensures r[a] != r[b] {
      var a', b' := if a < j then a else a + 1, if b < j then b else b + 1;
      assert r[a] == s[a'] && r[b] == s[b'];
    }
  }

  /** `Map.prototype.set`: a new key goes to the end of the order, an existing key keeps its place. */
  function Insert<K(!new), V>(e: Entries<K, V>, k: K, v: V): (r: Entries<K, V>)
    requires WellFormed(e)
    ensures WellFormed(r)
    ensures r.values == e.values[k := v]
    ensures r.order == if k in e.values then e.order else e.order + [k]
  {
    if k in e.values then Entries(e.values[k := v], e.order)
    else
      var r := Entries(e.values[k := v], e.order + [k]);
      assert forall i :: 0 <= i < |e.order| ==> r.order[i] == e.order[i];
      r
  }

  /** `Map.prototype.delete`: the key leaves the map and the order; every other entry stays. */
  function Remove<K(!new), V>(e: Entries<K, V>, k: K): (r: Entries<K, V>)
    requires WellFormed(e)
    ensures WellFormed(r)
    ensures r.values == e.values - {k}
    ensures r.order == Without(e.order, k)
    ensures k !in r.values
    ensures |r.order| == if k in e.values then |e.order| - 1 else |e.order|
  {
    RemoveWellFormed(e, k);
    Entries(e.values - {k}, Without(e.order, k))
  }

  lemma RemoveWellFormed<K(!new), V>(e: Entries<K, V>, k: K)
    requires WellFormed(e)
    ensures WellFormed(Entries(e.values - {k}, Without(e.order, k)))
    ensures |Without(e.order, k)| == if k in e.values then |e.order| - 1 else |e.order|
  {
    var values, order := e.values - {k}, Without(e.order, k);
    WithoutDistinct(e.order, k);
    assert forall x :: x in values <==> x in order;
    if k in e.values {
      assert e.values.Keys == values.Keys + {k};
    } else {
      assert e.values.Keys == values.Keys;
    }
  }

  /** The pairs a `for..of` over the map visits, in iteration order. */
  function Items<K(!new), V>(e: Entries<K, V>): (r: seq<(K, V)>)
    requires WellFormed(e)
    ensures |r| == |e.values|
    ensures forall i :: 0 <= i < |r| ==> r[i].0 == e.order[i] && r[i].0 in e.values && r[i].1 == e.values[r[i].0]
  {
    seq(|e.order|, i requires 0 <= i < |e.order| => (e.order[i], e.values[e.order[i]]))
  }

  /** Iterating after deleting the key at position `j` visits the other pairs, in their old order and with their old values. */
  lemma ItemsAfterRemove<K(!new), V>(e: Entries<K, V>, j: nat)
    requires WellFormed(e) && j < |e.order|
    ensures Items(Remove(e, e.order[j])) == Items(e)[..j] + Items(e)[j + 1..]
  {
    var k := e.order[j];
    var r := Remove(e, k);
    WithoutAt(e.order, j);
    var a, b := Items(r), Items(e)[..j] + Items(e)[j + 1..];
    assert |a| == |b|;
    forall i | 0 <= i < |a| ensures a[i] == b[i] {
      if i < j {
        assert r.order[i] == e.order[i] && b[i] == Items(e)[i];
      } else {
        assert r.order[i] == e.order[i + 1] && b[i] == Items(e)[i + 1];
      }
    }
  }

  /** Iterating after a new key is set (or synthesised by `get`) yields the old pairs, then the new one. */
  lemma ItemsAfterInsertNew<K(!new), V>(e: Entries<K, V>, k: K, v: V)
    requires WellFormed(e) && k !in e.values
    ensures Items(Insert(e, k, v)) == Items(e) + [(k, v)]
  {
    var a, b := Items(Insert(e, k, v)), Items(e) + [(k, v)];
    assert |a| == |b|;
    forall i | 0 <= i < |a| ensures a[i] == b[i] {
      if i < |e.order| {
        assert e.order[i] != k;
      }
    }
  }

  /** Overwriting an existing key keeps the iteration order and changes only that key's pair. */
  lemma ItemsAfterOverwrite<K(!new), V>(e: Entries<K, V>, k: K, v: V)
    requires WellFormed(e) && k in e.values
    ensures |Items(Insert(e, k, v))| == |Items(e)|
    ensures forall i :: 0 <= i < |Items(e)| ==>
      Items(Insert(e, k, v))[i] == if Items(e)[i].0 == k then (k, v) else Items(e)[i]
  {
  }

  /** The map built by `new Map(entries)`: each pair is set in turn. */
  function FromPairs<K(!new), V>(pairs: seq<(K, V)>): (r: Entries<K, V>)
    ensures WellFormed(r)
  {
    if pairs == [] then Entries(map[], [])
    else Insert(FromPairs(pairs[..|pairs| - 1]), pairs[|pairs| - 1].0, pairs[|pairs| - 1].1)
  }

  /** The prefilled map holds exactly the keys of the prefill pairs. */
  lemma {:induction false} FromPairsKeys<K(!new), V>(pairs: seq<(K, V)>, k: K)
    ensures k in FromPairs(pairs).values <==> exists i :: 0 <= i < |pairs| && pairs[i].0 == k
  {
    if pairs != [] {
      var init := pairs[..|pairs| - 1];
      FromPairsKeys(init, k);
      assert FromPairs(pairs).values == FromPairs(init).values[pairs[|pairs| - 1].0 := pairs[|pairs| - 1].1];
      NamedByPrefixOrLast(pairs, init, k);
    }
  }

  /** A key is named by some pair exactly when the pairs before the last, or the last, name it. */
  lemma NamedByPrefixOrLast<K, V>(pairs: seq<(K, V)>, init: seq<(K, V)>, k: K)
    requires pairs != [] && init == pairs[..|pairs| - 1]
    ensures (exists i :: 0 <= i < |pairs| && pairs[i].0 == k) <==>
      (exists i :: 0 <= i < |init| && init[i].0 == k) || pairs[|pairs| - 1].0 == k
  {
    if exists i :: 0 <= i < |init| && init[i].0 == k {
      var i :| 0 <= i < |init| && init[i].0 == k;
      assert pairs[i].0 == k;
    }
    if exists i :: 0 <= i < |pairs| && pairs[i].0 == k {
      var i :| 0 <= i < |pairs| && pairs[i].0 == k;
      if i < |init| {
        assert init[i].0 == k;
      }
    }
  }

  /** A prefilled pair is stored as given, unless a later pair sets the same key again. */
  lemma {:induction false} FromPairsLookup<K(!new), V>(pairs: seq<(K, V)>, i: nat)
    requires i < |pairs|
    requires forall j :: i < j < |pairs| ==> pairs[j].0 != pairs[i].0
    ensures pairs[i].0 in FromPairs(pairs).values
    ensures FromPairs(pairs).values[pairs[i].0] == pairs[i].1
  {
    if i < |pairs| - 1 {
      var init := pairs[..|pairs| - 1];
      assert init[i] == pairs[i];
      forall j | i < j < |init| ensures init[j].0 != init[i].0 {
        assert init[j] == pairs[j];
      }
      FromPairsLookup(init, i);
    }
  }

  /**
   * The class itself (src/MapWithDefault.ts:2-13). The inherited `Map` is the pair of
   * fields `values` and `order`; the factory is fixed at construction.
   */
  class MapWithDefault<K(==,!new), V> {
    const factory: K -> V
    var values: map<K, V>
    var order: seq<K>

    function State(): Entries<K, V>
      reads this
    {
      Entries(values, order)
    }

    ghost predicate Valid()
      reads this
    {
      WellFormed(State())
    }

    /** `Map.prototype.has`: presence of an entry, whatever its value. */
    predicate Has(key: K)
      reads this
    {
      key in values
    }

    /** `Map.prototype.size`. */
    function Size(): nat
      reads this
    {
      |order|
    }

    /** `new MapWithDefault(factory, entries)`: the `Map` constructor sets each prefill pair in turn. */
    constructor (factory: K -> V, prefill: seq<(K, V)>)
      ensures Valid()
      ensures this.factory == factory
      ensures State() == FromPairs(prefill)
    {
      this.factory := factory;
      values, order := map[], [];
      new;
      var i := 0;
      while i < |prefill|
        invariant 0 <= i <= |prefill|
        invariant Valid()
        invariant State() == FromPairs(prefill[..i])
      {
        assert prefill[..i + 1][..i] == prefill[..i];
        assert FromPairs(prefill[..i + 1]) == Insert(FromPairs(prefill[..i]), prefill[i].0, prefill[i].1);
        Set(prefill[i].0, prefill[i].1);
        i := i + 1;
      }
      assert prefill[..|prefill|] == prefill;
    }

    /**
     * `get(key, noDefault)`: a present key, or any key under a strict read, gives what
     * `Map.prototype.get` gives; otherwise the factory's value is stored and returned.
     */
    method Get(key: K, noDefault: bool) returns (r: Option<V>)
      requires Valid()
      modifies this
      ensures Valid()
      ensures old(Has(key)) ==> r == Some(old(values)[key]) && State() == old(State())
      ensures !old(Has(key)) && noDefault ==> r == None && State() == old(State())
      ensures !old(Has(key)) && !noDefault ==>
        && r == Some(factory(key))
        && State() == Insert(old(State()), key, factory(key))
        && Has(key) && Size() == old(Size()) + 1
      ensures !noDefault ==> r.Some?
    {
      if noDefault || key in values {
        r := if key in values then Some(values[key]) else None;
        return;
      }
      var val := factory(key);
      Set(key, val);
      r := Some(val);
    }

    /** `Map.prototype.set`. */
    method Set(key: K, val: V)
      requires Valid()
      modifies this
      ensures Valid()
      ensures State() == Insert(old(State()), key, val)
    {
      if key !in values {
        order := order + [key];
      }
      values := values[key := val];
    }

    /** `Map.prototype.delete`: reports whether there was an entry to remove. */
    method Delete(key: K) returns (deleted: bool)
      requires Valid()
      modifies this
      ensures Valid()
      ensures deleted == old(Has(key))
      ensures State() == Remove(old(State()), key)
    {
      deleted := key in values;
      var next := Remove(State(), key);
      assert WellFormed(next);
      values, order := next.values, next.order;
      assert State() == next;
    }

    /** Iteration over the map (`Array.from(map)`). */
    function Pairs(): (r: seq<(K, V)>)
      reads this
      requires Valid()
      ensures r == Items(State())
      ensures |r| == Size()
    {
      Items(State())
    }
  }

  /**
   * After `delete(k)`, `has(k)` is false and the next `get(k)` stores and returns a
   * fresh `factory(k)` again (the "delete a value" case of MapWithDefault.spec.ts).
   */
  method DeleteThenGet<K(!new), V>(m: MapWithDefault<K, V>, k: K) returns (r: Option<V>)
    requires m.Valid()
    modifies m
    ensures m.Valid()
    ensures r == Some(m.factory(k)) && m.Has(k)
    ensures m.values == old(m.values)[k := m.factory(k)]
  {
    ghost var before := m.State();
    var _ := m.Delete(k);
    r := m.Get(k, false);
    RemoveThenInsert(before, k, m.factory(k));
  }

  /** Setting a key again after deleting it stores the new value and leaves every other entry alone. */
  lemma RemoveThenInsert<K(!new), V>(e: Entries<K, V>, k: K, v: V)
    requires WellFormed(e)
    ensures Insert(Remove(e, k), k, v).values == e.values[k := v]
  {
    UpdateAfterRemoval(e.values, k, v);
  }

  lemma UpdateAfterRemoval<K, V>(m: map<K, V>, k: K, v: V)
    ensures (m - {k})[k := v] == m[k := v]
  {
    var a, b := (m - {k})[k := v], m[k := v];
    assert a.Keys == b.Keys;
  }

  /**
   * MapWithDefault.spec.ts, "should not create a value if it is set to `undefined`": a key
   * explicitly set to `undefined` (here `None`) is present, and `get` returns what is stored
   * instead of calling the factory.
   */
  method StoredUndefinedIsReturned() returns (present: bool, r: Option<Option<int>>)
    ensures present && r == Some(None)
  {
    var m := new MapWithDefault<string, Option<int>>(_ => Some(0), []);
    m.Set("key", None);
    present := m.Has("key");
    r := m.Get("key", false);
  }

  /** Setting `foo` and then adding `baz` visits `foo` first. */
  lemma SetThenSynthesise()
    ensures Items(Insert(Insert(Entries(map[], []), "foo", "bar"), "baz", "baz" + "!")) == [("foo", "bar"), ("baz", "baz" + "!")]
  {
    var before := Insert(Entries(map[], []), "foo", "bar");
    assert before == Entries(map["foo" := "bar"], ["foo"]);
    assert Items(before) == [("foo", "bar")];
    ItemsAfterInsertNew(before, "baz", "baz" + "!");
  }

  /**
   * MapWithDefault.spec.ts, "should be able to iterate as a regular Map": an entry set
   * first and one synthesised by `get` afterwards are visited in that order.
   */
  method IterationOrder() returns (pairs: seq<(string, string)>)
    ensures pairs == [("foo", "bar"), ("baz", "baz" + "!")]
  {
    var m := new MapWithDefault<string, string>(k => k + "!", []);
    ghost var empty := Entries(map[], []);
    assert m.State() == empty;
    m.Set("foo", "bar");
    assert "baz" !in m.values;
    var _ := m.Get("baz", false);
    assert m.State() == Insert(Insert(empty, "foo", "bar"), "baz", "baz" + "!");
    SetThenSynthesise();
    pairs := m.Pairs();
  }
}
