/**
  The fast conversion of plain JavaScript values to JSON, and the way back.
*/
module BridgeJson {
  import opened Wrappers
  import opened BridgeStrings
  import opened BridgeTrees

  /** An object is an ordered list of members with distinct names. */
  datatype Json = JNull | JBool(b: bool) | JNumber(d: Double) | JString(s: string) | JArray(items: seq<Json>) | JObject(keys: seq<string>, items: seq<Json>)

  function IndexOf<T(==)>(s: seq<T>, x: T): (r: int)
    ensures if x in s then 0 <= r < |s| && s[r] == x else r == -1
  {
    if s == [] then -1
    else if s[|s| - 1] == x then |s| - 1
    else IndexOf(s[..|s| - 1], x)
  }

  /** An ordered map: a known name gets a new value in its old place, a new name comes last. */
  function Insert<K(==), V>(m: (seq<K>, seq<V>), k: K, v: V): (seq<K>, seq<V>)
    requires |m.0| == |m.1|
  {
    var i := IndexOf(m.0, k);
    if i >= 0 then (m.0, m.1[i := v]) else (m.0 + [k], m.1 + [v])
  }

  /** An insertion brings in no other names and values. */
  lemma Inserted<K, V>(m: (seq<K>, seq<V>), k: K, v: V)
    requires |m.0| == |m.1|
    ensures var r := Insert(m, k, v);
            && |r.0| == |r.1| == (if k in m.0 then |m.0| else |m.0| + 1)
            && (forall x :: x in r.0 ==> x == k || x in m.0) && (forall y :: y in r.1 ==> y == v || y in m.1)
            && (k !in m.0 ==> r == (m.0 + [k], m.1 + [v])) && (k in m.0 ==> r.0 == m.0)
  {
    var i := IndexOf(m.0, k);
    if i >= 0 {
      forall y | y in m.1[i := v] ensures y == v || y in m.1 {
        var j :| 0 <= j < |m.1| && m.1[i := v][j] == y;
        assert m.1[j] in m.1;
      }
    }
  }

  function PrimJson(p: Prim): Json {
    match p
    case Null => JNull
    case Bool(b) => JBool(b)
    case Number(d) => JNumber(d)
    case Text(u) => JString(Lossy(u))
    case Special => JNull
  }

  /** The JSON of a tree. */
  function ToJson(t: JsTree): Json
    decreases t, 0
  {
    match t
    case Leaf(p) => PrimJson(p)
    case Node(_, Arr, items) => JArray(JsonItems(items, |items|))
    case Node(_, Obj(keys), items) =>
      var m := Members(keys, items, if |keys| <= |items| then |keys| else |items|);
      JObject(m.0, m.1)
  }

  function JsonItems(items: seq<JsTree>, n: nat): (r: seq<Json>)
    requires n <= |items|
    ensures |r| == n
    decreases items, n
  {
    if n == 0 then [] else JsonItems(items, n - 1) + [ToJson(items[n - 1])]
  }

  /** The members of an object whose names were made Rust strings; names may have become equal. */
  function Members(keys: seq<Key>, items: seq<JsTree>, n: nat): (m: (seq<string>, seq<Json>))
    requires n <= |items| && n <= |keys|
    ensures |m.0| == |m.1| <= n
    decreases items, n
  {
    if n == 0 then ([], []) else Insert(Members(keys, items, n - 1), Lossy(keys[n - 1]), ToJson(items[n - 1]))
  }

  // ----- the conversion -----

  /**
    The conversion of one value.  It gives up exactly when no tree of the value is
    taken at this depth with these hashes seen; otherwise it gives the tree's JSON.
  */
  method TryFastJsonFromV8(heap: Heap, h: Hash, value: Value, depth: nat, visited0: seq<int>)
    returns (r: Option<Json>, visited: seq<int>, ghost t: JsTree)
    requires HeapOk(heap) && (value.Ref? ==> value.r in heap) && depth <= 65
    ensures r.Some? ==> Unfolds(heap, value, t) && Walk(h, t, depth, visited0) == Some(visited) && r.value == ToJson(t)
    ensures r.None? ==> forall u :: Unfolds(heap, value, u) ==> Walk(h, u, depth, visited0).None?
    decreases 65 - depth, 0
  {
    visited := visited0;
    t := Leaf(Null);
    if depth > 64 || |visited| > 4096 {
      return None, visited, t;
    }
    match value
    case Primitive(p) =>
      t := Leaf(p);
      match p {
        case Null => r := Some(JNull);
        case Bool(b) => r := Some(JBool(b));
        case Number(d) => r := if d.Finite? then Some(JNumber(d)) else None;
        case Text(u) => r := Some(JString(Lossy(u)));
        case Special => r := None;
      }
    case Ref(ref) =>
      var hash := h(ref);
      if hash in visited {
        return None, visited, t;
      }
      visited := visited + [hash];
      match heap[ref].shape {
        case Arr => r, visited, t := FastArray(heap, h, ref, depth, visited);
        case Obj(_) => r, visited, t := FastObject(heap, h, ref, depth, visited);
      }
  }

  /** The elements of an array, one after the other. */
  method FastArray(heap: Heap, h: Hash, ref: nat, depth: nat, seen: seq<int>)
    returns (r: Option<Json>, visited: seq<int>, ghost t: JsTree)
    requires HeapOk(heap) && ref in heap && heap[ref].shape == Arr && depth <= 64
    ensures r.Some? ==> t.Node? && Unfolds(heap, Ref(ref), t) && WalkUpTo(h, Arr, t.items, |t.items|, depth + 1, seen) == Some(visited)
    ensures r.Some? ==> r.value == ToJson(t)
    ensures r.None? ==> forall u: JsTree :: Unfolds(heap, Ref(ref), u) && u.Node? ==> WalkUpTo(h, Arr, u.items, |u.items|, depth + 1, seen).None?
    decreases 65 - depth, 0, 0
  {
    hide *;
    NothingYet(heap, h, ref, depth + 1, seen);
    var items := heap[ref].items;
    visited := seen;
    t := Leaf(Null);
    var out := [];
    ghost var ts: seq<JsTree> := [];
    var i := 0;
    while i < |items|
      invariant i <= |items| && |ts| == i && Prefix(heap, ref, ts)
      invariant WalkUpTo(h, Arr, ts, i, depth + 1, seen) == Some(visited)
      invariant out == JsonItems(ts, i)
    {
      ItemKnown(heap, ref, i);
      var item, after, it := TryFastJsonFromV8(heap, h, items[i], depth + 1, visited);
      if item.None? {
        NoTree(heap, h, ref, ts, depth + 1, seen, visited);
        return None, visited, t;
      }
      MarkIs(Arr, i);
      OneMore(heap, h, ref, ts, it, depth + 1, seen, visited, after);
      JsonExtended(ts, it);
      ts := ts + [it];
      visited := after;
      out := out + [item.value];
      i := i + 1;
    }
    WholeCell(heap, ref, ts);
    CellJson(ref, Arr, ts);
    t := Node(ref, Arr, ts);
    r := Some(JArray(out));
  }

  /** The members of an object, one after the other; a marker among the names is the end. */
  method FastObject(heap: Heap, h: Hash, ref: nat, depth: nat, seen: seq<int>)
    returns (r: Option<Json>, visited: seq<int>, ghost t: JsTree)
    requires HeapOk(heap) && ref in heap && heap[ref].shape.Obj? && depth <= 64
    ensures r.Some? ==> t.Node? && Unfolds(heap, Ref(ref), t)
    ensures r.Some? ==> WalkUpTo(h, heap[ref].shape, t.items, |t.items|, depth + 1, seen) == Some(visited)
    ensures r.Some? ==> r.value == ToJson(t)
    ensures r.None? ==> forall u: JsTree :: Unfolds(heap, Ref(ref), u) && u.Node? ==>
              WalkUpTo(h, heap[ref].shape, u.items, |u.items|, depth + 1, seen).None?
    decreases 65 - depth, 0, 0
  {
    hide *;
    NothingYet(heap, h, ref, depth + 1, seen);
    var shape, keys, items := heap[ref].shape, heap[ref].shape.keys, heap[ref].items;
    visited := seen;
    t := Leaf(Null);
    var out: (seq<string>, seq<Json>) := ([], []);
    ghost var ts: seq<JsTree> := [];
    var i := 0;
    KeyCount(heap, ref);
    while i < |keys|
      invariant i <= |keys| == |items| && |ts| == i && Prefix(heap, ref, ts)
      invariant WalkUpTo(h, shape, ts, i, depth + 1, seen) == Some(visited)
      invariant out == Members(keys, ts, i)
    {
      ItemKnown(heap, ref, i);
      MarkIs(shape, i);
      var key := Lossy(keys[i]);
      if IsWireMarkerKey(key) {
        NoTree(heap, h, ref, ts, depth + 1, seen, visited);
        return None, visited, t;
      }
      var item, after, it := TryFastJsonFromV8(heap, h, items[i], depth + 1, visited);
      if item.None? {
        NoTree(heap, h, ref, ts, depth + 1, seen, visited);
        return None, visited, t;
      }
      OneMore(heap, h, ref, ts, it, depth + 1, seen, visited, after);
      MembersExtended(keys, ts, it);
      ts := ts + [it];
      visited := after;
      out := Insert(out, key, item.value);
      i := i + 1;
    }
    WholeCell(heap, ref, ts);
    CellJson(ref, shape, ts);
    t := Node(ref, shape, ts);
    r := Some(JObject(out.0, out.1));
  }

  /** The trees of the first items of a cell. */
  ghost predicate Prefix(heap: Heap, ref: nat, ts: seq<JsTree>) {
    ref in heap && |ts| <= |heap[ref].items| && forall k :: 0 <= k < |ts| ==> Unfolds(heap, heap[ref].items[k], ts[k])
  }

  lemma ItemKnown(heap: Heap, ref: nat, i: nat)
    requires HeapOk(heap) && ref in heap && i < |heap[ref].items|
    ensures heap[ref].items[i].Ref? ==> heap[ref].items[i].r in heap
  {
  }

  lemma KeyCount(heap: Heap, ref: nat)
    requires HeapOk(heap) && ref in heap && heap[ref].shape.Obj?
    ensures |heap[ref].shape.keys| == |heap[ref].items|
  {
  }

  lemma Extended(h: Hash, shape: Shape, ts: seq<JsTree>, it: JsTree, depth: nat, seen: seq<int>)
    ensures WalkUpTo(h, shape, ts + [it], |ts|, depth, seen) == WalkUpTo(h, shape, ts, |ts|, depth, seen)
  {
    WalkPrefix(h, shape, ts + [it], ts, |ts|, depth, seen);
  }

  lemma {:induction false} JsonPrefix(a: seq<JsTree>, b: seq<JsTree>, n: nat)
    requires n <= |a| && n <= |b| && forall i :: 0 <= i < n ==> a[i] == b[i]
    ensures JsonItems(a, n) == JsonItems(b, n)
  {
    if n > 0 {
      JsonPrefix(a, b, n - 1);
    }
  }

  lemma JsonExtended(ts: seq<JsTree>, it: JsTree)
    ensures JsonItems(ts + [it], |ts| + 1) == JsonItems(ts, |ts|) + [ToJson(it)]
  {
    JsonPrefix(ts + [it], ts, |ts|);
  }

  lemma {:induction false} MembersPrefix(keys: seq<Key>, a: seq<JsTree>, b: seq<JsTree>, n: nat)
    requires n <= |a| && n <= |b| && n <= |keys| && forall i :: 0 <= i < n ==> a[i] == b[i]
    ensures Members(keys, a, n) == Members(keys, b, n)
  {
    hide Insert, ToJson, Lossy;
    if n > 0 {
      MembersPrefix(keys, a, b, n - 1);
      assert a[n - 1] == b[n - 1];
    }
  }

  lemma MembersExtended(keys: seq<Key>, ts: seq<JsTree>, it: JsTree)
    requires |ts| < |keys|
    ensures Members(keys, ts + [it], |ts| + 1) == Insert(Members(keys, ts, |ts|), Lossy(keys[|ts|]), ToJson(it))
  {
    MembersPrefix(keys, ts + [it], ts, |ts|);
  }

  /** Where one item cannot be converted, no tree of the whole is visited to the end. */
  lemma GivesUp(heap: Heap, h: Hash, ref: nat, ts: seq<JsTree>, u: JsTree, depth: nat, seen: seq<int>, visited: seq<int>)
    requires Prefix(heap, ref, ts) && |ts| < |heap[ref].items| && Unfolds(heap, Ref(ref), u) && u.Node?
    requires WalkUpTo(h, u.shape, ts, |ts|, depth, seen) == Some(visited)
    requires MarkedAt(u.shape, |ts|) || forall w :: Unfolds(heap, heap[ref].items[|ts|], w) ==> Walk(h, w, depth, visited).None?
    ensures WalkUpTo(h, u.shape, u.items, |u.items|, depth, seen).None?
  {
    var n := |ts|;
    forall k | 0 <= k < n ensures u.items[k] == ts[k] {
      UnfoldsUnique(heap, heap[ref].items[k], u.items[k], ts[k]);
    }
    WalkPrefix(h, u.shape, u.items, ts, n, depth, seen);
    assert Unfolds(heap, heap[ref].items[n], u.items[n]);
    assert WalkUpTo(h, u.shape, u.items, n + 1, depth, seen).None?;
    WalkStops(h, u.shape, u.items, n + 1, |u.items|, depth, seen);
  }

  lemma NoTree(heap: Heap, h: Hash, ref: nat, ts: seq<JsTree>, depth: nat, seen: seq<int>, visited: seq<int>)
    requires Prefix(heap, ref, ts) && ref in heap && |ts| < |heap[ref].items|
    requires WalkUpTo(h, heap[ref].shape, ts, |ts|, depth, seen) == Some(visited)
    requires MarkedAt(heap[ref].shape, |ts|) || forall w :: Unfolds(heap, heap[ref].items[|ts|], w) ==> Walk(h, w, depth, visited).None?
    ensures forall u: JsTree :: Unfolds(heap, Ref(ref), u) && u.Node? ==> WalkUpTo(h, heap[ref].shape, u.items, |u.items|, depth, seen).None?
  {
    forall u: JsTree | Unfolds(heap, Ref(ref), u) && u.Node? ensures WalkUpTo(h, heap[ref].shape, u.items, |u.items|, depth, seen).None? {
      assert u.shape == heap[ref].shape;
      GivesUp(heap, h, ref, ts, u, depth, seen, visited);
    }
  }

  lemma NothingYet(heap: Heap, h: Hash, ref: nat, depth: nat, seen: seq<int>)
    requires ref in heap
    ensures Prefix(heap, ref, []) && WalkUpTo(h, heap[ref].shape, [], 0, depth, seen) == Some(seen) && JsonItems([], 0) == []
    ensures heap[ref].shape.Obj? ==> Members(heap[ref].shape.keys, [], 0) == ([], [])
  {
  }

  /** One more item is visited. */
  lemma OneMore(heap: Heap, h: Hash, ref: nat, ts: seq<JsTree>, it: JsTree, depth: nat, seen: seq<int>, visited: seq<int>, after: seq<int>)
    requires Prefix(heap, ref, ts) && ref in heap && |ts| < |heap[ref].items| && Unfolds(heap, heap[ref].items[|ts|], it)
    requires WalkUpTo(h, heap[ref].shape, ts, |ts|, depth, seen) == Some(visited) && Walk(h, it, depth, visited) == Some(after)
    requires !MarkedAt(heap[ref].shape, |ts|)
    ensures Prefix(heap, ref, ts + [it]) && WalkUpTo(h, heap[ref].shape, ts + [it], |ts| + 1, depth, seen) == Some(after)
  {
    Extended(h, heap[ref].shape, ts, it, depth, seen);
    hide Walk, Unfolds;
  }

  lemma WholeCell(heap: Heap, ref: nat, ts: seq<JsTree>)
    requires Prefix(heap, ref, ts) && ref in heap && |ts| == |heap[ref].items|
    ensures Unfolds(heap, Ref(ref), Node(ref, heap[ref].shape, ts))
  {
  }

  lemma MarkIs(shape: Shape, i: nat)
    ensures MarkedAt(shape, i) <==> shape.Obj? && i < |shape.keys| && IsWireMarkerKey(Lossy(shape.keys[i]))
  {
  }

  lemma CellJson(ref: nat, shape: Shape, ts: seq<JsTree>)
    ensures shape.Arr? ==> ToJson(Node(ref, shape, ts)) == JArray(JsonItems(ts, |ts|))
    ensures shape.Obj? && |shape.keys| == |ts| ==>
              var m := Members(shape.keys, ts, |ts|); ToJson(Node(ref, shape, ts)) == JObject(m.0, m.1)
  {
  }
}
