/** The three path-directed writers of the document builder
    (`set_nested_value`, `set_nested_array`, `set_nested_map`). Each walks a
    `/`-separated slot path through nested mappings, creating a missing
    mapping at every step, and silently gives up where an existing value on
    the way has the wrong shape; they differ only in what they do at the last
    key, which `Leaf` names. The source mutates an owned mapping through
    `&mut`; here each writer returns the updated mapping. */
module NestedWrite {
  import opened Wrappers
  import opened IndexMaps
  import opened Yaml

  /** What happens at the last key: overwrite it, append a string to the
      sequence there, or merge entries into the mapping there. */
  datatype Leaf = Overwrite(v: Value) | Append(s: string) | Merge(kv: Mapping)

  /** The new value for the last key given the one it has, or `None` when
      the existing value has the wrong shape and nothing is written. */
  function ApplyLeaf(leaf: Leaf, prev: Option<Value>): Option<Value> {
    match leaf
    case Overwrite(v) => Some(v)
    case Append(s) =>
      (match prev
       case None => Some(Seq([Str(s)]))
       case Some(Seq(xs)) => Some(Seq(xs + [Str(s)]))
       case Some(_) => None)
    case Merge(kv) =>
      (match prev
       case None => Some(Map(InsertAll([], kv)))
       case Some(Map(es)) => Some(Map(InsertAll(es, kv)))
       case Some(_) => None)
  }

  /** The ensure-and-descend walk shared by the three writers. */
  function UpdateAt(m: Mapping, path: seq<string>, leaf: Leaf): Mapping
    decreases |path|
  {
    if path == [] then m
    else if |path| == 1 then
      match ApplyLeaf(leaf, Get(m, path[0]))
      case None => m
      case Some(nv) => Insert(m, path[0], nv)
    else
      var cur: Option<Value> := Get(m, path[0]);
      match cur
      case None => Insert(m, path[0], Map(UpdateAt([], path[1..], leaf)))
      case Some(Map(inner)) => Insert(m, path[0], Map(UpdateAt(inner, path[1..], leaf)))
      case Some(_) => m
  }

  /** `set_nested_value`: the last key is overwritten. */
  function SetNestedValue(m: Mapping, path: seq<string>, v: Value): Mapping {
    UpdateAt(m, path, Overwrite(v))
  }

  /** `set_nested_array`: the string is appended to the sequence at the last
      key, which is created empty on first use. */
  function SetNestedArray(m: Mapping, path: seq<string>, s: string): Mapping {
    UpdateAt(m, path, Append(s))
  }

  /** `set_nested_map`: the entries are inserted one by one into the mapping
      at the last key, which is created empty on first use. */
  function SetNestedMap(m: Mapping, path: seq<string>, kv: Mapping): Mapping {
    UpdateAt(m, path, Merge(kv))
  }

  /** Every proper prefix of `path` names a mapping or nothing, so the walk
      reaches the last key. */
  predicate Writable(m: Mapping, path: seq<string>)
    decreases |path|
  {
    |path| <= 1 ||
    match Get(m, path[0])
    case None => true
    case Some(v) => v.Map? && Writable(v.entries, path[1..])
  }

  /** `p` and `q` part ways at some position both of them have. */
  predicate Diverges(p: seq<string>, q: seq<string>)
    decreases |p|
  {
    p != [] && q != [] && (p[0] != q[0] || Diverges(p[1..], q[1..]))
  }

  /** Where the walk gets through, the last key holds what the leaf makes of
      its prev value (and keeps that value when the leaf declines). */
  lemma {:induction false} UpdateAtReaches(m: Mapping, path: seq<string>, leaf: Leaf)
    requires path != [] && Writable(m, path)
    ensures GetPath(UpdateAt(m, path, leaf), path) ==
            if ApplyLeaf(leaf, GetPath(m, path)).Some? then ApplyLeaf(leaf, GetPath(m, path)) else GetPath(m, path)
    decreases |path|
  {
    var k := path[0];
    var r := UpdateAt(m, path, leaf);
    if |path| == 1 {
      match ApplyLeaf(leaf, Get(m, k))
      case None =>
      case Some(nv) => InsertGet(m, k, nv, k);
    } else {
      var below: Mapping := if Get(m, k).None? then [] else Get(m, k).value.entries;
      var inner := UpdateAt(below, path[1..], leaf);
      assert r == Insert(m, k, Map(inner));
      InsertGet(m, k, Map(inner), k);
      assert GetPath(r, path) == GetPath(inner, path[1..]);
      assert GetPath(m, path) == GetPath(below, path[1..]);
      UpdateAtReaches(below, path[1..], leaf);
    }
  }

  /** Where an existing value on the way is not a mapping, nothing changes. */
  lemma {:induction false} UpdateAtBlocked(m: Mapping, path: seq<string>, leaf: Leaf)
    requires !Writable(m, path)
    ensures UpdateAt(m, path, leaf) == m
    decreases |path|
  {
    var cur: Option<Value> := Get(m, path[0]);
    var k := path[0];
    match cur
    case Some(Map(inner)) =>
      UpdateAtBlocked(inner, path[1..], leaf);
      InsertSame(m, k, Map(inner));
    case Some(_) =>
  }

  /** Re-inserting the value a key already has changes nothing. */
  lemma {:induction false} InsertSame(m: Mapping, k: string, v: Value)
    requires Get(m, k) == Some(v)
    ensures Insert(m, k, v) == m
  {
    if m[0].key != k {
      InsertSame(m[1..], k, v);
    }
  }

  /** Keys other than the path's first are untouched. */
  lemma UpdateAtOtherKey(m: Mapping, path: seq<string>, leaf: Leaf, k': string)
    requires path != [] && k' != path[0]
    ensures Get(UpdateAt(m, path, leaf), k') == Get(m, k')
  {
    var k := path[0];
    if |path| == 1 {
      match ApplyLeaf(leaf, Get(m, k))
      case None =>
      case Some(nv) => InsertGet(m, k, nv, k');
    } else {
      var cur: Option<Value> := Get(m, k);
      match cur
      case None => InsertGet(m, k, Map(UpdateAt([], path[1..], leaf)), k');
      case Some(Map(inner)) => InsertGet(m, k, Map(UpdateAt(inner, path[1..], leaf)), k');
      case Some(_) =>
    }
  }

  lemma GetPathHead(m1: Mapping, m2: Mapping, q: seq<string>)
    requires q != [] && Get(m1, q[0]) == Get(m2, q[0])
    ensures GetPath(m1, q) == GetPath(m2, q)
  {
    match Get(m1, q[0])
    case None =>
    case Some(v) =>
      if |q| > 1 && v.Map? {
        assert GetPath(m1, q) == GetPath(v.entries, q[1..]);
        assert GetPath(m2, q) == GetPath(v.entries, q[1..]);
      }
  }

  /** A path that parts ways with the written one reads what it read before. */
  lemma {:induction false} UpdateAtFrame(m: Mapping, path: seq<string>, leaf: Leaf, q: seq<string>)
    requires Diverges(path, q)
    ensures GetPath(UpdateAt(m, path, leaf), q) == GetPath(m, q)
    decreases |path|
  {
    var k := path[0];
    var r := UpdateAt(m, path, leaf);
    if q[0] != k {
      UpdateAtOtherKey(m, path, leaf, q[0]);
      GetPathHead(r, m, q);
    } else {
      assert Diverges(path[1..], q[1..]);
      var cur: Option<Value> := Get(m, k);
      match cur
      case None =>
        var inner := UpdateAt([], path[1..], leaf);
        InsertGet(m, k, Map(inner), k);
        UpdateAtFrame([], path[1..], leaf, q[1..]);
        assert GetPath([], q[1..]) == None;
      case Some(Map(inner)) =>
        InsertGet(m, k, Map(UpdateAt(inner, path[1..], leaf)), k);
        UpdateAtFrame(inner, path[1..], leaf, q[1..]);
      case Some(_) =>
    }
  }

  /** The top-level keys keep their order; at most the path's first key is
      appended, and only when it was missing. */
  lemma UpdateAtKeys(m: Mapping, path: seq<string>, leaf: Leaf)
    ensures var ks := Keys(UpdateAt(m, path, leaf));
            ks == Keys(m) || (path != [] && path[0] !in Keys(m) && ks == Keys(m) + [path[0]])
  {
    if path != [] {
      var k := path[0];
      if |path| == 1 {
        match ApplyLeaf(leaf, Get(m, k))
        case None =>
        case Some(nv) => InsertKeys(m, k, nv);
      } else {
        var cur: Option<Value> := Get(m, k);
        match cur
        case None => InsertKeys(m, k, Map(UpdateAt([], path[1..], leaf)));
        case Some(Map(inner)) => InsertKeys(m, k, Map(UpdateAt(inner, path[1..], leaf)));
        case Some(_) =>
      }
    }
  }

  /** Scalar writes overwrite: the slot ends up holding exactly the value,
      whatever it held before, when every step on the way is a mapping or
      missing; otherwise nothing changes. */
  lemma SetNestedValueSets(m: Mapping, path: seq<string>, v: Value)
    requires path != []
    ensures Writable(m, path) ==> GetPath(SetNestedValue(m, path, v), path) == Some(v)
    ensures !Writable(m, path) ==> SetNestedValue(m, path, v) == m
  {
    if Writable(m, path) {
      UpdateAtReaches(m, path, Overwrite(v));
    } else {
      UpdateAtBlocked(m, path, Overwrite(v));
    }
  }

  /** Array writes append: a missing slot becomes a one-element sequence, a
      sequence grows by the string at its end, and a slot of another shape
      (or a blocked path) leaves the mapping unchanged. */
  lemma SetNestedArrayAppends(m: Mapping, path: seq<string>, s: string)
    requires path != []
    ensures Writable(m, path) && GetPath(m, path) == None ==>
            GetPath(SetNestedArray(m, path, s), path) == Some(Seq([Str(s)]))
    ensures Writable(m, path) && GetPath(m, path).Some? && GetPath(m, path).value.Seq? ==>
            GetPath(SetNestedArray(m, path, s), path) == Some(Seq(GetPath(m, path).value.items + [Str(s)]))
    ensures (GetPath(m, path).Some? && !GetPath(m, path).value.Seq?) || !Writable(m, path) ==>
            SetNestedArray(m, path, s) == m
  {
    if Writable(m, path) {
      UpdateAtReaches(m, path, Append(s));
      if GetPath(m, path).Some? && !GetPath(m, path).value.Seq? {
        UnchangedWhenLeafDeclines(m, path, Append(s));
      }
    } else {
      UpdateAtBlocked(m, path, Append(s));
    }
  }

  /** Map writes merge: every merged key reads its last value from `kv`,
      every other key of an existing mapping keeps its value, and a slot of
      another shape (or a blocked path) leaves the mapping unchanged. */
  lemma SetNestedMapMerges(m: Mapping, path: seq<string>, kv: Mapping, k: string)
    requires path != []
    ensures Writable(m, path) && (GetPath(m, path) == None || GetPath(m, path).value.Map?) ==>
            var prev := if GetPath(m, path) == None then [] else GetPath(m, path).value.entries;
            && GetPath(SetNestedMap(m, path, kv), path).Some?
            && GetPath(SetNestedMap(m, path, kv), path).value.Map?
            && Get(GetPath(SetNestedMap(m, path, kv), path).value.entries, k) ==
               if LastValue(kv, k).Some? then LastValue(kv, k) else Get(prev, k)
    ensures (GetPath(m, path).Some? && !GetPath(m, path).value.Map?) || !Writable(m, path) ==>
            SetNestedMap(m, path, kv) == m
  {
    if Writable(m, path) {
      UpdateAtReaches(m, path, Merge(kv));
      if GetPath(m, path) == None {
        InsertAllGet([], kv, k);
      } else if GetPath(m, path).value.Map? {
        InsertAllGet(GetPath(m, path).value.entries, kv, k);
      } else {
        UnchangedWhenLeafDeclines(m, path, Merge(kv));
      }
    } else {
      UpdateAtBlocked(m, path, Merge(kv));
    }
  }

  /** When the leaf declines the value it finds, the mapping is unchanged. */
  lemma {:induction false} UnchangedWhenLeafDeclines(m: Mapping, path: seq<string>, leaf: Leaf)
    requires path != [] && Writable(m, path)
    requires ApplyLeaf(leaf, GetPath(m, path)) == None
    ensures UpdateAt(m, path, leaf) == m
    decreases |path|
  {
    var k := path[0];
    if |path| > 1 {
      match Get(m, k)
      case None =>
        assert false;
      case Some(v) =>
        UnchangedWhenLeafDeclines(v.entries, path[1..], leaf);
        InsertSame(m, k, v);
    }
  }
}
