/**
  JavaScript values as a heap graph, the trees they may unfold to, and JSON.
  What the fast conversion accepts is said about trees, without heap or order of visit.
*/
module BridgeTrees {
  import opened Wrappers
  import opened BridgeStrings

  type Key = seq<Unit>

  /** A double is finite or not; which one it is does not matter here. */
  datatype Double = Finite(bits: int) | NonFinite(bits: int)

  /** Special: undefined, functions, symbols, dates, buffers, maps, sets and all the other kinds that are not plain data. */
  datatype Prim = Null | Bool(b: bool) | Number(d: Double) | Text(u: seq<Unit>) | Special

  datatype Value = Primitive(p: Prim) | Ref(r: nat)

  /** An array, or an object with its own property names in order. */
  datatype Shape = Arr | Obj(keys: seq<Key>)

  datatype Cell = Cell(shape: Shape, items: seq<Value>)

  type Heap = map<nat, Cell>

  ghost predicate ShapeOk(shape: Shape, n: nat) {
    shape.Obj? ==> |shape.keys| == n && Distinct(shape.keys)
  }

  /** References lead somewhere, and an object has one value for each of its names. */
  ghost predicate HeapOk(heap: Heap) {
    forall r :: r in heap ==>
      && ShapeOk(heap[r].shape, |heap[r].items|)
      && forall i :: 0 <= i < |heap[r].items| && heap[r].items[i].Ref? ==> heap[r].items[i].r in heap
  }

  // ----- unfolding -----

  datatype JsTree = Leaf(p: Prim) | Node(r: nat, shape: Shape, items: seq<JsTree>)

  /** The tree is all that can be reached from the value; there is none for a value that reaches a cycle. */
  ghost predicate Unfolds(heap: Heap, v: Value, t: JsTree)
    decreases t
  {
    match t
    case Leaf(p) => v == Primitive(p)
    case Node(r, shape, items) =>
      && v == Ref(r) && r in heap && heap[r].shape == shape && |heap[r].items| == |items|
      && forall i :: 0 <= i < |items| ==> Unfolds(heap, heap[r].items[i], items[i])
  }

  lemma {:induction false} UnfoldsUnique(heap: Heap, v: Value, t: JsTree, u: JsTree)
    requires Unfolds(heap, v, t) && Unfolds(heap, v, u)
    ensures t == u
    decreases t
  {
    if t.Node? {
      forall i | 0 <= i < |t.items| ensures t.items[i] == u.items[i] {
        UnfoldsUnique(heap, heap[t.r].items[i], t.items[i], u.items[i]);
      }
      assert t.items == u.items;
    }
  }

  // ----- what is accepted -----

  const TYPE_KEY := "__denojs_worker_type"

  predicate IsWireMarkerKey(k: string) {
    k in {"__proto__", "__undef", "__num", "__denojs_worker_num", "__denojs_worker_graph_id", "__denojs_worker_graph_ref",
          "__denojs_worker_graph_kind", "__denojs_worker_graph_value", "__date", "__bigint", "__regexp", "__buffer", "__map",
          "__set", "__url", "__urlSearchParams", TYPE_KEY}
  }

  /** Null, booleans, finite numbers and strings. */
  predicate PlainPrim(p: Prim) {
    p.Null? || p.Bool? || p.Text? || (p.Number? && p.d.Finite?)
  }

  predicate MarkedAt(shape: Shape, i: nat) {
    shape.Obj? && i < |shape.keys| && IsWireMarkerKey(Lossy(shape.keys[i]))
  }

  ghost predicate Plain(t: JsTree) {
    match t
    case Leaf(p) => PlainPrim(p)
    case Node(_, shape, items) => forall i: nat :: i < |items| ==> !MarkedAt(shape, i) && Plain(items[i])
  }

  /** No value lies deeper than k. */
  ghost predicate Shallow(t: JsTree, k: int) {
    k >= 0 && (t.Node? ==> forall i :: 0 <= i < |t.items| ==> Shallow(t.items[i], k - 1))
  }

  type Hash = nat -> int

  /** The identity hashes of all containers, in the order of the visit. */
  ghost function Hashes(h: Hash, t: JsTree): seq<int>
    decreases t, 0
  {
    match t
    case Leaf(_) => []
    case Node(r, _, items) => [h(r)] + HashesUpTo(h, items, |items|)
  }

  ghost function HashesUpTo(h: Hash, items: seq<JsTree>, n: nat): seq<int>
    requires n <= |items|
    decreases items, n
  {
    if n == 0 then [] else HashesUpTo(h, items, n - 1) + Hashes(h, items[n - 1])
  }

  /** How many containers are visited before the last value of the tree. */
  ghost function Before(h: Hash, t: JsTree): nat {
    match t
    case Leaf(_) => 0
    case Node(_, _, items) =>
      if items == [] then 0
      else 1 + |HashesUpTo(h, items, |items| - 1)| + Before(h, items[|items| - 1])
  }

  /** What the fast conversion takes: a plain tree of limited depth and size whose containers have different hashes. */
  ghost predicate Acceptable(h: Hash, t: JsTree) {
    Plain(t) && Shallow(t, 64) && Distinct(Hashes(h, t)) && Before(h, t) <= 4096
  }

  // ----- the visit, step by step -----

  /** One visit of the tree: the hashes seen after it, or None where it gives up. */
  ghost function Walk(h: Hash, t: JsTree, depth: nat, visited: seq<int>): Option<seq<int>>
    decreases t, 0
  {
    if depth > 64 || |visited| > 4096 then None
    else match t
      case Leaf(p) => if PlainPrim(p) then Some(visited) else None
      case Node(r, shape, items) => if h(r) in visited then None else WalkUpTo(h, shape, items, |items|, depth + 1, visited + [h(r)])
  }

  ghost function WalkUpTo(h: Hash, shape: Shape, items: seq<JsTree>, n: nat, depth: nat, visited: seq<int>): Option<seq<int>>
    requires n <= |items|
    decreases items, n
  {
    if n == 0 then Some(visited)
    else
      match WalkUpTo(h, shape, items, n - 1, depth, visited)
      case None => None
      case Some(v) => if MarkedAt(shape, n - 1) then None else Walk(h, items[n - 1], depth, v)
  }

  /** The visit of the first items does not depend on the others. */
  lemma {:induction false} WalkPrefix(h: Hash, shape: Shape, a: seq<JsTree>, b: seq<JsTree>, n: nat, depth: nat, visited: seq<int>)
    requires n <= |a| && n <= |b| && forall i :: 0 <= i < n ==> a[i] == b[i]
    ensures WalkUpTo(h, shape, a, n, depth, visited) == WalkUpTo(h, shape, b, n, depth, visited)
  {
    if n > 0 {
      WalkPrefix(h, shape, a, b, n - 1, depth, visited);
    }
  }

  /** Giving up is final. */
  lemma {:induction false} WalkStops(h: Hash, shape: Shape, items: seq<JsTree>, n: nat, m: nat, depth: nat, visited: seq<int>)
    requires n <= m <= |items| && WalkUpTo(h, shape, items, n, depth, visited).None?
    ensures WalkUpTo(h, shape, items, m, depth, visited).None?
  {
    if n < m {
      WalkStops(h, shape, items, n, m - 1, depth, visited);
    }
  }

  // ----- the visit in closed form -----

  ghost predicate Taken(h: Hash, t: JsTree, depth: nat, visited: seq<int>) {
    Plain(t) && Shallow(t, 64 - depth) && Distinct(visited + Hashes(h, t)) && |visited| + Before(h, t) <= 4096
  }

  ghost predicate TakenUpTo(h: Hash, shape: Shape, items: seq<JsTree>, n: nat, depth: nat, visited: seq<int>)
    requires n <= |items|
  {
    && (forall i: nat :: i < n ==> !MarkedAt(shape, i) && Plain(items[i]) && Shallow(items[i], 64 - depth))
    && Distinct(visited + HashesUpTo(h, items, n))
    && (n > 0 ==> |visited| + |HashesUpTo(h, items, n - 1)| + Before(h, items[n - 1]) <= 4096)
  }

  lemma {:induction false} BeforeBound(h: Hash, t: JsTree)
    ensures Before(h, t) <= |Hashes(h, t)|
  {
    if t.Node? && t.items != [] {
      BeforeBound(h, t.items[|t.items| - 1]);
    }
  }

  lemma NoDupParts(a: seq<int>, b: seq<int>)
    requires Distinct(a + b)
    ensures Distinct(a)
  {
    forall i, j | 0 <= i < j < |a| ensures a[i] != a[j] {
      assert (a + b)[i] == a[i] && (a + b)[j] == a[j];
    }
  }

  lemma NoDupSnoc(a: seq<int>, x: int)
    requires Distinct(a)
    ensures Distinct(a + [x]) <==> x !in a
  {
    if x in a {
      var i :| 0 <= i < |a| && a[i] == x;
      assert (a + [x])[i] == (a + [x])[|a|];
    }
  }

  /** The visit succeeds on exactly the acceptable trees and sees exactly their hashes. */
  lemma {:induction false} WalkExact(h: Hash, t: JsTree, depth: nat, visited: seq<int>)
    requires Distinct(visited)
    ensures Walk(h, t, depth, visited) == if Taken(h, t, depth, visited) then Some(visited + Hashes(h, t)) else None
    decreases t, 0
  {
    match t
    case Leaf(p) =>
      assert visited + [] == visited;
    case Node(r, shape, items) =>
      var n := |items|;
      var more := visited + [h(r)];
      NoDupSnoc(visited, h(r));
      assert visited + Hashes(h, t) == more + HashesUpTo(h, items, n);
      if Distinct(visited + Hashes(h, t)) {
        NoDupParts(more, HashesUpTo(h, items, n));
      }
      if h(r) !in visited {
        WalkUpToExact(h, shape, items, n, depth + 1, more);
      }
      hide Distinct, HashesUpTo, Walk, WalkUpTo;
      if n == 0 {
        assert more + HashesUpTo(h, items, 0) == more;
      }
  }

  lemma {:induction false} WalkUpToExact(h: Hash, shape: Shape, items: seq<JsTree>, n: nat, depth: nat, visited: seq<int>)
    requires n <= |items| && Distinct(visited) && depth > 0
    ensures WalkUpTo(h, shape, items, n, depth, visited) ==
            if TakenUpTo(h, shape, items, n, depth, visited) then Some(visited + HashesUpTo(h, items, n)) else None
    decreases items, n
  {
    hide *;
    if n == 0 {
      WalkedNone(h, shape, items, depth, visited);
    } else {
      var before := visited + HashesUpTo(h, items, n - 1);
      WalkUpToExact(h, shape, items, n - 1, depth, visited);
      WalkedNext(h, shape, items, n, depth, visited);
      TakenNext(h, shape, items, n, depth, visited);
      if Distinct(before) {
        WalkExact(h, items[n - 1], depth, before);
      }
    }
  }

  lemma WalkedNone(h: Hash, shape: Shape, items: seq<JsTree>, depth: nat, visited: seq<int>)
    requires Distinct(visited)
    ensures WalkUpTo(h, shape, items, 0, depth, visited) == Some(visited) == Some(visited + HashesUpTo(h, items, 0))
    ensures TakenUpTo(h, shape, items, 0, depth, visited)
  {
    assert visited + [] == visited;
    hide Distinct;
  }

  lemma WalkedNext(h: Hash, shape: Shape, items: seq<JsTree>, n: nat, depth: nat, visited: seq<int>)
    requires 0 < n <= |items|
    ensures match WalkUpTo(h, shape, items, n - 1, depth, visited)
            case None => WalkUpTo(h, shape, items, n, depth, visited) == None
            case Some(v) =>
              WalkUpTo(h, shape, items, n, depth, visited) == if MarkedAt(shape, n - 1) then None else Walk(h, items[n - 1], depth, v)
    ensures visited + HashesUpTo(h, items, n) == (visited + HashesUpTo(h, items, n - 1)) + Hashes(h, items[n - 1])
  {
    hide Walk, MarkedAt, Hashes;
  }

  /** One more item is taken after the items before it. */
  lemma TakenNext(h: Hash, shape: Shape, items: seq<JsTree>, n: nat, depth: nat, visited: seq<int>)
    requires 0 < n <= |items| && Distinct(visited)
    ensures var before := visited + HashesUpTo(h, items, n - 1);
            (TakenUpTo(h, shape, items, n - 1, depth, visited) ==> Distinct(before)) &&
            (TakenUpTo(h, shape, items, n, depth, visited) <==>
               TakenUpTo(h, shape, items, n - 1, depth, visited) && !MarkedAt(shape, n - 1) && Taken(h, items[n - 1], depth, before))
  {
    var before, last := visited + HashesUpTo(h, items, n - 1), Hashes(h, items[n - 1]);
    assert visited + HashesUpTo(h, items, n) == before + last;
    if Distinct(before + last) {
      NoDupParts(before, last);
    }
    if n > 1 {
      BeforeBound(h, items[n - 2]);
      assert HashesUpTo(h, items, n - 1) == HashesUpTo(h, items, n - 2) + Hashes(h, items[n - 2]);
    }
    hide Plain, Shallow, MarkedAt, Hashes, HashesUpTo, Before, Distinct;
  }
}
