/** A JavaScript `Map<string, V>`: lookups by key, and iteration in the order in
    which keys were first inserted. `set` on a present key replaces its value
    and keeps its position. */
module IndexMaps {
  import opened Prelude

  datatype IndexMap<V> = IndexMap(keys: seq<string>, entries: map<string, V>) {

    /** `keys` lists every key of `entries` exactly once. */
    ghost predicate Valid() {
      && (forall i, j | 0 <= i < j < |keys| :: keys[i] != keys[j])
      && (forall k | k in keys :: k in entries)
      && (forall k | k in entries :: k in keys)
    }

    /** `Map.prototype.get`. */
    function Get(k: string): Option<V> {
      if k in entries then Some(entries[k]) else None
    }

    /** `Map.prototype.set`. */
    function Set(k: string, v: V): (r: IndexMap<V>)
      ensures Valid() ==> r.Valid()
      ensures r.Get(k) == Some(v)
      ensures forall k' | k' != k :: r.Get(k') == Get(k')
    {
      IndexMap(if k in entries then keys else keys + [k], entries[k := v])
    }
  }

  function EmptyIndex<V>(): IndexMap<V> {
    IndexMap([], map[])
  }

  /** The map that `for (const x of xs) m.set(key(x), x)` leaves behind. */
  function IndexOf<V>(xs: seq<V>, key: V -> string): IndexMap<V> {
    if xs == [] then EmptyIndex()
    else IndexOf(xs[..|xs| - 1], key).Set(key(xs[|xs| - 1]), xs[|xs| - 1])
  }

  /** The loop that fills a fresh map from a list, keyed by `key`. */
  method BuildIndex<V>(xs: seq<V>, key: V -> string) returns (m: IndexMap<V>)
    ensures m == IndexOf(xs, key)
    ensures m.Valid()
  {
    m := EmptyIndex();
    for i := 0 to |xs|
      invariant m == IndexOf(xs[..i], key)
      invariant m.Valid()
    {
      assert xs[..i + 1][..i] == xs[..i];
      m := m.Set(key(xs[i]), xs[i]);
    }
    assert xs[..|xs|] == xs;
  }

  /** The keys are exactly the keys of the listed values. */
  lemma {:induction false} IndexKeys<V>(xs: seq<V>, key: V -> string)
    ensures IndexOf(xs, key).entries.Keys == set x | x in xs :: key(x)
  {
    if xs != [] {
      var pre, last := xs[..|xs| - 1], xs[|xs| - 1];
      assert xs == pre + [last];
      IndexKeys(pre, key);
      assert (set x | x in xs :: key(x)) == (set x | x in pre :: key(x)) + {key(last)};
    }
  }

  /** When several values share a key, the last one listed wins. */
  lemma {:induction false} LastWriteWins<V>(xs: seq<V>, key: V -> string, j: nat)
    requires j < |xs|
    requires forall j' | j < j' < |xs| :: key(xs[j']) != key(xs[j])
    ensures IndexOf(xs, key).Get(key(xs[j])) == Some(xs[j])
  {
    if j < |xs| - 1 {
      var pre := xs[..|xs| - 1];
      assert pre[j] == xs[j];
      forall j' | j < j' < |pre| ensures key(pre[j']) != key(pre[j]) {
        assert pre[j'] == xs[j'];
      }
      LastWriteWins(pre, key, j);
    }
  }

  /** A value followed only by values of other keys is the one stored. */
  lemma LastWriteWinsSplit<V>(before: seq<V>, x: V, after: seq<V>, key: V -> string)
    requires forall y | y in after :: key(y) != key(x)
    ensures IndexOf(before + [x] + after, key).Get(key(x)) == Some(x)
  {
    var xs := before + [x] + after;
    var j := |before|;
    forall j' | j < j' < |xs| ensures key(xs[j']) != key(xs[j]) {
      assert xs[j'] == after[j' - j - 1];
    }
    LastWriteWins(xs, key, j);
  }

  /** Every value is stored under its own key. */
  lemma {:induction false} IndexSelfKeyed<V>(xs: seq<V>, key: V -> string)
    ensures forall k | k in IndexOf(xs, key).entries :: key(IndexOf(xs, key).entries[k]) == k
  {
    if xs != [] {
      IndexSelfKeyed(xs[..|xs| - 1], key);
    }
  }

  /** The map is well formed and has no more keys than the list has values. */
  lemma {:induction false} IndexSize<V>(xs: seq<V>, key: V -> string)
    ensures IndexOf(xs, key).Valid()
    ensures |IndexOf(xs, key).keys| <= |xs|
  {
    if xs != [] {
      IndexSize(xs[..|xs| - 1], key);
    }
  }
}
