/** The insertion-ordered map (`indexmap::IndexMap<String, V>`) the source
    uses for the flag multimap, the mapping table's lookups and every YAML
    mapping it builds: a sequence of entries with distinct keys, where
    inserting an existing key replaces its value in place and inserting a
    new key appends it. */
module IndexMaps {
  import opened Wrappers

  datatype Entry<V> = Entry(key: string, val: V)

  function Keys<V>(m: seq<Entry<V>>): (ks: seq<string>)
    ensures |ks| == |m|
    ensures forall i :: 0 <= i < |m| ==> ks[i] == m[i].key
  {
    if m == [] then [] else [m[0].key] + Keys(m[1..])
  }

  predicate UniqueKeys<V>(m: seq<Entry<V>>) {
    forall i, j :: 0 <= i < j < |m| ==> m[i].key != m[j].key
  }

  /** `IndexMap::get`. */
  function Get<V>(m: seq<Entry<V>>, k: string): (r: Option<V>)
    ensures r.Some? <==> k in Keys(m)
    ensures r.Some? ==> exists i :: 0 <= i < |m| && m[i] == Entry(k, r.value)
  {
    if m == [] then None
    else if m[0].key == k then Some(m[0].val)
    else Get(m[1..], k)
  }

  /** `IndexMap::insert`: an existing key keeps its position and takes the
      new value; a new key goes to the end. */
  function Insert<V>(m: seq<Entry<V>>, k: string, v: V): seq<Entry<V>> {
    if m == [] then [Entry(k, v)]
    else if m[0].key == k then [Entry(k, v)] + m[1..]
    else [m[0]] + Insert(m[1..], k, v)
  }

  /** After an insertion the key maps to the new value and every other key
      to what it mapped to before. */
  lemma {:induction false} InsertGet<V>(m: seq<Entry<V>>, k: string, v: V, k': string)
    ensures Get(Insert(m, k, v), k') == if k' == k then Some(v) else Get(m, k')
  {
    if m != [] && m[0].key != k {
      InsertGet(m[1..], k, v, k');
      assert Insert(m, k, v)[1..] == Insert(m[1..], k, v);
    }
  }

  /** An insertion keeps the order of the keys and appends a new key. */
  lemma {:induction false} InsertKeys<V>(m: seq<Entry<V>>, k: string, v: V)
    ensures Keys(Insert(m, k, v)) == if k in Keys(m) then Keys(m) else Keys(m) + [k]
  {
    if m != [] {
      assert Keys(m) == [m[0].key] + Keys(m[1..]);
      if m[0].key != k {
        InsertKeys(m[1..], k, v);
        assert Insert(m, k, v) == [m[0]] + Insert(m[1..], k, v);
        assert Keys(Insert(m, k, v)) == [m[0].key] + Keys(Insert(m[1..], k, v));
      } else {
        assert Keys(Insert(m, k, v)) == [k] + Keys(m[1..]);
      }
    }
  }

  /** A new key goes at the end. */
  lemma InsertFresh<V>(m: seq<Entry<V>>, k: string, v: V)
    requires k !in Keys(m)
    ensures Keys(Insert(m, k, v)) == Keys(m) + [k]
  {
    InsertKeys(m, k, v);
  }

  /** Inserting keeps the keys distinct. */
  lemma InsertUnique<V>(m: seq<Entry<V>>, k: string, v: V)
    requires UniqueKeys(m)
    ensures UniqueKeys(Insert(m, k, v))
  {
    var r := Insert(m, k, v);
    InsertKeys(m, k, v);
    var ks := Keys(r);
    forall i, j | 0 <= i < j < |r| ensures r[i].key != r[j].key {
      assert ks[i] == r[i].key && ks[j] == r[j].key;
      if k in Keys(m) {
        assert Keys(m)[i] == m[i].key && Keys(m)[j] == m[j].key;
      } else if j == |m| {
        assert ks[i] == Keys(m)[i];
      } else {
        assert Keys(m)[i] == m[i].key && Keys(m)[j] == m[j].key;
      }
    }
  }

  /** Copies the entries of `kv` into `m` in order, as a loop of `insert`s. */
  function InsertAll<V>(m: seq<Entry<V>>, kv: seq<Entry<V>>): seq<Entry<V>>
    decreases |kv|
  {
    if kv == [] then m else InsertAll(Insert(m, kv[0].key, kv[0].val), kv[1..])
  }

  /** The value of the last entry of `kv` with key `k`, if any. */
  function LastValue<V>(kv: seq<Entry<V>>, k: string): Option<V> {
    if kv == [] then None
    else if kv[|kv| - 1].key == k then Some(kv[|kv| - 1].val)
    else LastValue(kv[..|kv| - 1], k)
  }

  lemma {:induction false} LastValueCons<V>(e: Entry<V>, kv: seq<Entry<V>>, k: string)
    ensures LastValue([e] + kv, k) == if LastValue(kv, k).Some? then LastValue(kv, k)
                                      else if e.key == k then Some(e.val) else None
    decreases |kv|
  {
    var s := [e] + kv;
    if kv != [] {
      assert s[|s| - 1] == kv[|kv| - 1];
      assert s[..|s| - 1] == [e] + kv[..|kv| - 1];
      LastValueCons(e, kv[..|kv| - 1], k);
    }
  }

  /** Merging entries into a map: a key of `kv` takes the value of its LAST
      occurrence there; any other key keeps its value. */
  lemma {:induction false} InsertAllGet<V>(m: seq<Entry<V>>, kv: seq<Entry<V>>, k: string)
    ensures Get(InsertAll(m, kv), k) == if LastValue(kv, k).Some? then LastValue(kv, k) else Get(m, k)
    decreases |kv|
  {
    if kv != [] {
      InsertAllGet(Insert(m, kv[0].key, kv[0].val), kv[1..], k);
      InsertGet(m, kv[0].key, kv[0].val, k);
      LastValueCons(kv[0], kv[1..], k);
      assert [kv[0]] + kv[1..] == kv;
    }
  }

  /** Looking up in a map with one more entry at its end. */
  lemma {:induction false} GetSnoc<V>(m: seq<Entry<V>>, e: Entry<V>, k: string)
    ensures Get(m + [e], k) == if Get(m, k).Some? then Get(m, k) else if e.key == k then Some(e.val) else None
    decreases |m|
  {
    if m == [] {
      assert m + [e] == [e];
    } else {
      assert (m + [e])[0] == m[0] && (m + [e])[1..] == m[1..] + [e];
      GetSnoc(m[1..], e, k);
    }
  }

  /** In a map, whose keys are distinct, the last entry with a key is its
      only one, so `LastValue` is `Get`. */
  lemma {:induction false} LastValueUnique<V>(m: seq<Entry<V>>, k: string)
    requires UniqueKeys(m)
    ensures LastValue(m, k) == Get(m, k)
    decreases |m|
  {
    if m != [] {
      var n := |m| - 1;
      var init := m[..n];
      assert m == init + [m[n]];
      GetSnoc(init, m[n], k);
      LastValueUnique(init, k);
    }
  }

  /** Merging keeps the keys distinct. */
  lemma {:induction false} InsertAllUnique<V>(m: seq<Entry<V>>, kv: seq<Entry<V>>)
    requires UniqueKeys(m)
    ensures UniqueKeys(InsertAll(m, kv))
    decreases |kv|
  {
    if kv != [] {
      InsertUnique(m, kv[0].key, kv[0].val);
      InsertAllUnique(Insert(m, kv[0].key, kv[0].val), kv[1..]);
    }
  }

  /** Inserting a concatenation is inserting one part after the other. */
  lemma {:induction false} InsertAllAppend<V>(m: seq<Entry<V>>, a: seq<Entry<V>>, b: seq<Entry<V>>)
    ensures InsertAll(m, a + b) == InsertAll(InsertAll(m, a), b)
    decreases |a|
  {
    if a != [] {
      assert (a + b)[0] == a[0];
      assert (a + b)[1..] == a[1..] + b;
      InsertAllAppend(Insert(m, a[0].key, a[0].val), a[1..], b);
    } else {
      assert a + b == b;
    }
  }

  /** The distinct elements of `xs` in the order of their first occurrence
      (a loop that pushes an element unless the output already contains
      it). */
  function Dedup(xs: seq<string>): (r: seq<string>)
    ensures forall x :: x in r <==> x in xs
  {
    if xs == [] then []
    else
      var d := Dedup(xs[..|xs| - 1]);
      if xs[|xs| - 1] in d then d else d + [xs[|xs| - 1]]
  }

  predicate Distinct(xs: seq<string>) {
    forall i, j :: 0 <= i < j < |xs| ==> xs[i] != xs[j]
  }

  /** The output of `Dedup` has no repetition. */
  lemma {:induction false} DedupDistinct(xs: seq<string>)
    ensures Distinct(Dedup(xs))
  {
    if xs != [] {
      DedupDistinct(xs[..|xs| - 1]);
    }
  }

  /** A list without repetition is left as it is. */
  lemma {:induction false} DedupDistinctNoop(xs: seq<string>)
    requires Distinct(xs)
    ensures Dedup(xs) == xs
  {
    if xs != [] {
      var init := xs[..|xs| - 1];
      DedupDistinctNoop(init);
      assert xs[|xs| - 1] !in init by {
        forall i | 0 <= i < |init| ensures init[i] != xs[|xs| - 1] {
          assert init[i] == xs[i];
        }
      }
      assert init + [xs[|xs| - 1]] == xs;
    }
  }

  /** The keys of a map built by inserting `kv` into an empty map are the
      keys of `kv` in the order of their first insertion. */
  lemma {:induction false} InsertAllKeys<V>(kv: seq<Entry<V>>)
    ensures Keys(InsertAll([], kv)) == Dedup(Keys(kv))
    decreases |kv|
  {
    if kv != [] {
      var n := |kv| - 1;
      var init := kv[..n];
      var a := InsertAll([], init);
      InsertAllKeys(init);
      InsertAllAppend([], init, [kv[n]]);
      assert init + [kv[n]] == kv;
      assert InsertAll(a, [kv[n]]) == Insert(a, kv[n].key, kv[n].val);
      assert InsertAll([], kv) == Insert(a, kv[n].key, kv[n].val);
      InsertKeys(a, kv[n].key, kv[n].val);
      var ks := Keys(kv);
      assert ks[..n] == Keys(init);
      assert ks[n] == kv[n].key;
      assert Dedup(ks) == if ks[n] in Dedup(ks[..n]) then Dedup(ks[..n]) else Dedup(ks[..n]) + [ks[n]];
    }
  }

  /** `entry(k).or_insert_with(Vec::new).push(v)` on a multimap. */
  function Push(m: seq<Entry<seq<string>>>, k: string, v: string): seq<Entry<seq<string>>> {
    Insert(m, k, Get(m, k).GetOr([]) + [v])
  }

  /** Pushing appends to the key's list, creates it on first use and leaves
      every other key's list alone. */
  lemma PushGet(m: seq<Entry<seq<string>>>, k: string, v: string, k': string)
    ensures Get(Push(m, k, v), k') == if k' == k then Some(Get(m, k).GetOr([]) + [v]) else Get(m, k')
  {
    InsertGet(m, k, Get(m, k).GetOr([]) + [v], k');
  }
}
