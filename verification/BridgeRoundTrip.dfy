/**
  What the fast conversion promises: it takes exactly the acceptable trees, its JSON has
  no markers, and the way back rebuilds the value whenever its strings are well formed.
*/
module BridgeRoundTrip {
  import opened Wrappers
  import opened BridgeStrings
  import opened BridgeTrees
  import opened BridgeJson

  /** The conversion as it is called: it succeeds exactly on acceptable trees. */
  method FastJson(heap: Heap, h: Hash, value: Value) returns (r: Option<Json>)
    requires HeapOk(heap) && (value.Ref? ==> value.r in heap)
    ensures r.Some? <==> exists t :: Unfolds(heap, value, t) && Acceptable(h, t)
    ensures r.Some? ==> forall t :: Unfolds(heap, value, t) ==> r.value == ToJson(t)
  {
    ghost var t;
    var visited;
    r, visited, t := TryFastJsonFromV8(heap, h, value, 0, []);
    if r.Some? {
      TakenAtOnce(h, t);
      forall u | Unfolds(heap, value, u) ensures u == t {
        UnfoldsUnique(heap, value, u, t);
      }
    } else {
      forall u | Unfolds(heap, value, u) ensures !Acceptable(h, u) {
        TakenAtOnce(h, u);
      }
    }
  }

  lemma TakenAtOnce(h: Hash, t: JsTree)
    ensures Walk(h, t, 0, []).Some? <==> Acceptable(h, t)
  {
    WalkExact(h, t, 0, []);
    assert [] + Hashes(h, t) == Hashes(h, t);
  }

  // ----- no sharing -----

  ghost function Refs(t: JsTree): seq<nat>
    decreases t, 0
  {
    match t
    case Leaf(_) => []
    case Node(r, _, items) => [r] + RefsUpTo(items, |items|)
  }

  ghost function RefsUpTo(items: seq<JsTree>, n: nat): seq<nat>
    requires n <= |items|
    decreases items, n
  {
    if n == 0 then [] else RefsUpTo(items, n - 1) + Refs(items[n - 1])
  }

  ghost predicate SameImage(h: Hash, refs: seq<nat>, hashes: seq<int>) {
    |refs| == |hashes| && forall i :: 0 <= i < |refs| ==> hashes[i] == h(refs[i])
  }

  lemma {:induction false} HashesOfRefs(h: Hash, t: JsTree)
    ensures SameImage(h, Refs(t), Hashes(h, t))
    decreases t, 0
  {
    if t.Node? {
      HashesOfRefsUpTo(h, t.items, |t.items|);
    }
  }

  lemma {:induction false} HashesOfRefsUpTo(h: Hash, items: seq<JsTree>, n: nat)
    requires n <= |items|
    ensures SameImage(h, RefsUpTo(items, n), HashesUpTo(h, items, n))
    decreases items, n
  {
    if n > 0 {
      HashesOfRefsUpTo(h, items, n - 1);
      HashesOfRefs(h, items[n - 1]);
      SameJoined(h, RefsUpTo(items, n - 1), HashesUpTo(h, items, n - 1), Refs(items[n - 1]), Hashes(h, items[n - 1]));
      hide SameImage, Refs, Hashes;
    }
  }

  lemma SameJoined(h: Hash, a: seq<nat>, x: seq<int>, b: seq<nat>, y: seq<int>)
    requires SameImage(h, a, x) && SameImage(h, b, y)
    ensures SameImage(h, a + b, x + y)
  {
  }

  /** Different hashes mean different containers: what is accepted shares nothing, even if hashes collide elsewhere. */
  lemma AcceptedUnshared(h: Hash, t: JsTree)
    requires Acceptable(h, t)
    ensures forall i, j :: 0 <= i < j < |Refs(t)| ==> Refs(t)[i] != Refs(t)[j]
  {
    HashesOfRefs(h, t);
  }

  // ----- no markers -----

  predicate JsonContainsWireMarkers(j: Json) {
    match j
    case JArray(items) => exists i :: 0 <= i < |items| && JsonContainsWireMarkers(items[i])
    case JObject(keys, items) =>
      (exists k :: k in keys && IsWireMarkerKey(k)) || (exists i :: 0 <= i < |items| && JsonContainsWireMarkers(items[i]))
    case _ => false
  }

  lemma {:induction false} PlainUnmarked(t: JsTree)
    requires Plain(t)
    ensures !JsonContainsWireMarkers(ToJson(t))
    decreases t, 0
  {
    match t
    case Leaf(_) =>
    case Node(_, Arr, items) =>
      forall i | 0 <= i < |items| ensures !JsonContainsWireMarkers(JsonItems(items, |items|)[i]) {
        JsonItemAt(items, |items|, i);
        PlainUnmarked(items[i]);
      }
    case Node(_, Obj(keys), items) =>
      var n := if |keys| <= |items| then |keys| else |items|;
      var m := Members(keys, items, n);
      MembersUnmarked(t.shape, items, n);
      assert ToJson(t) == JObject(m.0, m.1);
      forall i | 0 <= i < |m.1| ensures !JsonContainsWireMarkers(m.1[i]) {
        assert m.1[i] in m.1;
      }
  }

  lemma {:induction false} JsonItemAt(items: seq<JsTree>, n: nat, i: nat)
    requires i < n <= |items|
    ensures JsonItems(items, n)[i] == ToJson(items[i])
  {
    if i < n - 1 {
      JsonItemAt(items, n - 1, i);
    }
  }

  lemma {:induction false} MembersUnmarked(shape: Shape, items: seq<JsTree>, n: nat)
    requires shape.Obj? && n <= |shape.keys| && n <= |items|
    requires forall i: nat :: i < n ==> !MarkedAt(shape, i) && Plain(items[i])
    ensures var m := Members(shape.keys, items, n);
            (forall k :: k in m.0 ==> !IsWireMarkerKey(k)) && forall x :: x in m.1 ==> !JsonContainsWireMarkers(x)
    decreases items, n
  {
    if n > 0 {
      MembersUnmarked(shape, items, n - 1);
      assert !MarkedAt(shape, n - 1) && Plain(items[n - 1]);
      PlainUnmarked(items[n - 1]);
      Inserted(Members(shape.keys, items, n - 1), Lossy(shape.keys[n - 1]), ToJson(items[n - 1]));
      hide JsonContainsWireMarkers, IsWireMarkerKey, ToJson, Plain, Insert;
    }
  }

  // ----- the way back -----

  /** Plain JavaScript values, every object a new one. */
  datatype PlainJs = BPrim(p: Prim) | BArray(items: seq<PlainJs>) | BObject(keys: seq<Key>, items: seq<PlainJs>)

  /** The value itself, without the identities of its containers. */
  function Bare(t: JsTree): PlainJs
    decreases t, 0
  {
    match t
    case Leaf(p) => BPrim(p)
    case Node(_, Arr, items) => BArray(BareItems(items, |items|))
    case Node(_, Obj(keys), items) => BObject(keys, BareItems(items, |items|))
  }

  function BareItems(items: seq<JsTree>, n: nat): (r: seq<PlainJs>)
    requires n <= |items|
    ensures |r| == n
    decreases items, n
  {
    if n == 0 then [] else BareItems(items, n - 1) + [Bare(items[n - 1])]
  }

  /** What `json_to_v8_plain` builds; below depth 200 it gives undefined. */
  function Rebuilt(j: Json, depth: nat): PlainJs
    decreases j, 0
  {
    if depth > 200 then BPrim(Special)
    else
      match j
      case JNull => BPrim(Null)
      case JBool(b) => BPrim(Bool(b))
      case JNumber(d) => BPrim(Number(d))
      case JString(s) => BPrim(Text(ToUnits(s)))
      case JArray(items) => BArray(RebuiltItems(items, |items|, depth + 1))
      case JObject(keys, items) =>
        var m := RebuiltMembers(keys, items, if |keys| <= |items| then |keys| else |items|, depth + 1);
        BObject(m.0, m.1)
  }

  function RebuiltItems(items: seq<Json>, n: nat, depth: nat): (r: seq<PlainJs>)
    requires n <= |items|
    ensures |r| == n
    decreases items, n
  {
    if n == 0 then [] else RebuiltItems(items, n - 1, depth) + [Rebuilt(items[n - 1], depth)]
  }

  function RebuiltMembers(keys: seq<string>, items: seq<Json>, n: nat, depth: nat): (m: (seq<Key>, seq<PlainJs>))
    requires n <= |items| && n <= |keys|
    ensures |m.0| == |m.1| <= n
    decreases items, n
  {
    if n == 0 then ([], []) else Insert(RebuiltMembers(keys, items, n - 1, depth), ToUnits(keys[n - 1]), Rebuilt(items[n - 1], depth))
  }

  /** The way back in loops: elements by index, members by name. */
  method JsonToV8Plain(j: Json, depth: nat) returns (v: PlainJs)
    requires Proper(j)
    ensures v == Rebuilt(j, depth)
    decreases j
  {
    if depth > 200 {
      return BPrim(Special);
    }
    match j
    case JNull => v := BPrim(Null);
    case JBool(b) => v := BPrim(Bool(b));
    case JNumber(d) => v := BPrim(Number(d));
    case JString(s) => v := BPrim(Text(ToUnits(s)));
    case JArray(items) =>
      var out: seq<PlainJs> := [];
      var i := 0;
      while i < |items|
        invariant i <= |items| && out == RebuiltItems(items, i, depth + 1)
      {
        var vv := JsonToV8Plain(items[i], depth + 1);
        out := out + [vv];
        i := i + 1;
      }
      v := BArray(out);
    case JObject(keys, items) =>
      var out: (seq<Key>, seq<PlainJs>) := ([], []);
      var i := 0;
      while i < |keys|
        invariant i <= |keys| && out == RebuiltMembers(keys, items, i, depth + 1)
      {
        var kk := ToUnits(keys[i]);
        var vv := JsonToV8Plain(items[i], depth + 1);
        out := Insert(out, kk, vv);
        i := i + 1;
      }
      v := BObject(out.0, out.1);
  }

  /** One value for each name, names distinct. */
  ghost predicate Proper(j: Json) {
    match j
    case JArray(items) => forall i :: 0 <= i < |items| ==> Proper(items[i])
    case JObject(keys, items) => |keys| == |items| && Distinct(keys) && forall i :: 0 <= i < |items| ==> Proper(items[i])
    case _ => true
  }

  /** No value of the JSON is below depth 200. */
  ghost predicate CutFree(j: Json, depth: nat) {
    depth <= 200 &&
    match j
    case JArray(items) => forall i :: 0 <= i < |items| ==> CutFree(items[i], depth + 1)
    case JObject(_, items) => forall i :: 0 <= i < |items| ==> CutFree(items[i], depth + 1)
    case _ => true
  }

  /** What comes from a tree of limited depth is rebuilt without reaching the cut. */
  lemma {:induction false} ShallowCutFree(t: JsTree, k: int, depth: nat)
    requires Shallow(t, k) && depth + k <= 200
    ensures CutFree(ToJson(t), depth)
    decreases t, 0
  {
    match t
    case Leaf(_) =>
    case Node(_, Arr, items) =>
      forall i | 0 <= i < |items| ensures CutFree(JsonItems(items, |items|)[i], depth + 1) {
        JsonItemAt(items, |items|, i);
        ShallowCutFree(items[i], k - 1, depth + 1);
      }
    case Node(_, Obj(keys), items) =>
      var n := if |keys| <= |items| then |keys| else |items|;
      var m := Members(keys, items, n);
      MembersCutFree(keys, items, n, k - 1, depth + 1);
      assert ToJson(t) == JObject(m.0, m.1);
      forall i | 0 <= i < |m.1| ensures CutFree(m.1[i], depth + 1) {
        assert m.1[i] in m.1;
      }
  }

  lemma {:induction false} MembersCutFree(keys: seq<Key>, items: seq<JsTree>, n: nat, k: int, depth: nat)
    requires n <= |keys| && n <= |items| && depth + k <= 200
    requires forall i :: 0 <= i < n ==> Shallow(items[i], k)
    ensures var m := Members(keys, items, n); forall x :: x in m.1 ==> CutFree(x, depth)
    decreases items, n
  {
    if n > 0 {
      MembersCutFree(keys, items, n - 1, k, depth);
      ShallowCutFree(items[n - 1], k, depth);
      Inserted(Members(keys, items, n - 1), Lossy(keys[n - 1]), ToJson(items[n - 1]));
      hide CutFree, ToJson, Shallow, Insert;
    }
  }

  // ----- the round trip -----

  /** All strings and all names are well formed. */
  ghost predicate TextsOk(t: JsTree) {
    match t
    case Leaf(p) => p.Text? ==> WellFormed(p.u)
    case Node(_, shape, items) =>
      && (shape.Obj? ==> forall k :: k in shape.keys ==> WellFormed(k))
      && forall i :: 0 <= i < |items| ==> TextsOk(items[i])
  }

  ghost predicate ShapesOk(t: JsTree) {
    t.Node? ==> ShapeOk(t.shape, |t.items|) && forall i :: 0 <= i < |t.items| ==> ShapesOk(t.items[i])
  }

  lemma {:induction false} UnfoldedShapes(heap: Heap, v: Value, t: JsTree)
    requires HeapOk(heap) && Unfolds(heap, v, t)
    ensures ShapesOk(t)
    decreases t
  {
    if t.Node? {
      forall i | 0 <= i < |t.items| ensures ShapesOk(t.items[i]) {
        UnfoldedShapes(heap, heap[t.r].items[i], t.items[i]);
      }
    }
  }

  lemma {:induction false} BareItemAt(items: seq<JsTree>, n: nat, i: nat)
    requires i < n <= |items|
    ensures BareItems(items, n)[i] == Bare(items[i])
  {
    if i < n - 1 {
      BareItemAt(items, n - 1, i);
    }
  }

  lemma {:induction false} RebuiltItemAt(items: seq<Json>, n: nat, depth: nat, i: nat)
    requires i < n <= |items|
    ensures RebuiltItems(items, n, depth)[i] == Rebuilt(items[i], depth)
  {
    if i < n - 1 {
      RebuiltItemAt(items, n - 1, depth, i);
    }
  }

  lemma RebuiltStep(keys: seq<string>, items: seq<Json>, n: nat, depth: nat)
    requires n <= |items| && n <= |keys|
    ensures n == 0 ==> RebuiltMembers(keys, items, n, depth) == ([], [])
    ensures n > 0 ==> RebuiltMembers(keys, items, n, depth)
                      == Insert(RebuiltMembers(keys, items, n - 1, depth), ToUnits(keys[n - 1]), Rebuilt(items[n - 1], depth))
  {
  }

  lemma UnitsDiffer(a: string, b: string)
    requires a != b
    ensures ToUnits(a) != ToUnits(b)
  {
    BackAndThere(a);
    BackAndThere(b);
  }

  lemma Differ(keys: seq<string>, i: nat, j: nat)
    requires Distinct(keys) && i < j < |keys|
    ensures keys[i] != keys[j]
  {
  }

  /** Names of Rust strings stay different, so the rebuilt object has them all, in order. */
  lemma {:induction false} RebuiltMemberAt(keys: seq<string>, items: seq<Json>, n: nat, depth: nat)
    requires n <= |items| && n <= |keys| && Distinct(keys)
    ensures var m := RebuiltMembers(keys, items, n, depth);
            |m.0| == |m.1| == n && forall i :: 0 <= i < n ==> m.0[i] == ToUnits(keys[i]) && m.1[i] == Rebuilt(items[i], depth)
    decreases n
  {
    hide *;
    RebuiltStep(keys, items, n, depth);
    if n > 0 {
      RebuiltMemberAt(keys, items, n - 1, depth);
      var m := RebuiltMembers(keys, items, n - 1, depth);
      forall i | 0 <= i < n - 1 ensures m.0[i] != ToUnits(keys[n - 1]) {
        Differ(keys, i, n - 1);
        UnitsDiffer(keys[i], keys[n - 1]);
      }
      Inserted(m, ToUnits(keys[n - 1]), Rebuilt(items[n - 1], depth));
    }
  }

  lemma {:induction false} MembersDistinct(keys: seq<Key>, items: seq<JsTree>, n: nat)
    requires n <= |items| && n <= |keys|
    ensures Distinct(Members(keys, items, n).0)
  {
    hide *;
    if n > 0 {
      MembersDistinct(keys, items, n - 1);
      MembersStep(keys, items, n);
      StillDistinct(Members(keys, items, n - 1), Lossy(keys[n - 1]), ToJson(items[n - 1]));
    } else {
      NoMembers(keys, items);
    }
  }

  lemma NoMembers(keys: seq<Key>, items: seq<JsTree>)
    ensures Distinct(Members(keys, items, 0).0)
  {
  }

  lemma StillDistinct(m: (seq<string>, seq<Json>), k: string, v: Json)
    requires |m.0| == |m.1| && Distinct(m.0)
    ensures Distinct(Insert(m, k, v).0)
  {
    Inserted(m, k, v);
    hide Insert;
  }

  lemma MembersStep(keys: seq<Key>, items: seq<JsTree>, n: nat)
    requires 0 < n <= |items| && n <= |keys|
    ensures Members(keys, items, n) == Insert(Members(keys, items, n - 1), Lossy(keys[n - 1]), ToJson(items[n - 1]))
  {
  }

  /** Of properties whose names become equal the last one gives the value, and no name is missing. */
  lemma {:induction false} LastWins(keys: seq<Key>, items: seq<JsTree>, n: nat, i: nat)
    requires i < n <= |items| && n <= |keys| && forall k :: i < k < n ==> Lossy(keys[k]) != Lossy(keys[i])
    ensures var m := Members(keys, items, n);
            exists j :: 0 <= j < |m.0| && m.0[j] == Lossy(keys[i]) && m.1[j] == ToJson(items[i])
  {
    MembersStep(keys, items, n);
    var before := Members(keys, items, n - 1);
    if i == n - 1 {
      InsertedThere(before, Lossy(keys[i]), ToJson(items[i]));
      hide Members, Lossy, ToJson, Insert;
    } else {
      LastWins(keys, items, n - 1, i);
      hide Members, Lossy, ToJson, Insert;
      var j :| 0 <= j < |before.0| && before.0[j] == Lossy(keys[i]) && before.1[j] == ToJson(items[i]);
      InsertedElsewhere(before, Lossy(keys[n - 1]), ToJson(items[n - 1]), j);
    }
  }

  lemma InsertedThere(m: (seq<string>, seq<Json>), k: string, v: Json)
    requires |m.0| == |m.1|
    ensures var r := Insert(m, k, v); |r.0| == |r.1| && exists j :: 0 <= j < |r.0| && r.0[j] == k && r.1[j] == v
  {
    var i := IndexOf(m.0, k);
    var r := Insert(m, k, v);
    if i >= 0 {
      assert r.0[i] == k && r.1[i] == v;
    } else {
      assert r.0[|m.0|] == k && r.1[|m.0|] == v;
    }
  }

  lemma InsertedElsewhere(m: (seq<string>, seq<Json>), k: string, v: Json, j: nat)
    requires |m.0| == |m.1| && j < |m.0| && m.0[j] != k
    ensures var r := Insert(m, k, v); |r.0| == |r.1| && j < |r.0| && r.0[j] == m.0[j] && r.1[j] == m.1[j]
  {
  }

  /** If no name was lost, every name and value is in its place. */
  lemma {:induction false} MembersFull(keys: seq<Key>, items: seq<JsTree>, n: nat)
    requires n <= |items| && n <= |keys| && |Members(keys, items, n).0| == n
    ensures var m := Members(keys, items, n);
            forall i :: 0 <= i < n ==> m.0[i] == Lossy(keys[i]) && m.1[i] == ToJson(items[i])
    decreases n
  {
    hide *;
    if n > 0 {
      MembersStep(keys, items, n);
      Inserted(Members(keys, items, n - 1), Lossy(keys[n - 1]), ToJson(items[n - 1]));
      MembersFull(keys, items, n - 1);
    }
  }

  /** Well-formed names are not lost. */
  lemma {:induction false} MembersKept(keys: seq<Key>, items: seq<JsTree>, n: nat)
    requires n <= |items| && n <= |keys| && Distinct(keys) && forall k :: k in keys ==> WellFormed(k)
    ensures |Members(keys, items, n).0| == n
  {
    if n > 0 {
      MembersKept(keys, items, n - 1);
      MembersFull(keys, items, n - 1);
      var m := Members(keys, items, n - 1);
      forall i | 0 <= i < n - 1 ensures m.0[i] != Lossy(keys[n - 1]) {
        if m.0[i] == Lossy(keys[n - 1]) {
          LossyInjective(keys[i], keys[n - 1]);
        }
      }
      Inserted(m, Lossy(keys[n - 1]), ToJson(items[n - 1]));
    }
  }

  /** Rebuilding gives the value back exactly when all its strings and names are well formed. */
  lemma {:induction false} RoundTrip(t: JsTree, k: int, depth: nat)
    requires Plain(t) && ShapesOk(t) && Shallow(t, k) && depth + k <= 200
    ensures Rebuilt(ToJson(t), depth) == Bare(t) <==> TextsOk(t)
    decreases t, 1
  {
    match t
    case Leaf(p) =>
      if p.Text? {
        ThereAndBack(p.u);
      }
    case Node(_, shape, items) =>
      forall i | 0 <= i < |items| ensures Rebuilt(ToJson(items[i]), depth + 1) == Bare(items[i]) <==> TextsOk(items[i]) {
        assert !MarkedAt(shape, i);
        RoundTrip(items[i], k - 1, depth + 1);
      }
      if shape.Arr? {
        RoundTripArray(t, depth);
      } else {
        RoundTripObject(t, depth);
      }
  }

  lemma RoundTripArray(t: JsTree, depth: nat)
    requires t.Node? && t.shape.Arr? && depth <= 200
    requires forall i :: 0 <= i < |t.items| ==> (Rebuilt(ToJson(t.items[i]), depth + 1) == Bare(t.items[i]) <==> TextsOk(t.items[i]))
    ensures Rebuilt(ToJson(t), depth) == Bare(t) <==> TextsOk(t)
  {
    var items, n := t.items, |t.items|;
    var js := JsonItems(items, n);
    var a, b := RebuiltItems(js, n, depth + 1), BareItems(items, n);
    assert Rebuilt(ToJson(t), depth) == BArray(a) && Bare(t) == BArray(b);
    assert TextsOk(t) <==> forall i :: 0 <= i < n ==> TextsOk(items[i]);
    hide Rebuilt, ToJson, Bare, TextsOk;
    forall i | 0 <= i < n ensures a[i] == b[i] <==> TextsOk(items[i]) {
      JsonItemAt(items, n, i);
      RebuiltItemAt(js, n, depth + 1, i);
      BareItemAt(items, n, i);
    }
    if a != b {
      var i :| 0 <= i < n && a[i] != b[i];
    }
  }

  lemma RoundTripObject(t: JsTree, depth: nat)
    requires t.Node? && t.shape.Obj? && ShapeOk(t.shape, |t.items|) && depth <= 200
    requires forall i :: 0 <= i < |t.items| ==> (Rebuilt(ToJson(t.items[i]), depth + 1) == Bare(t.items[i]) <==> TextsOk(t.items[i]))
    ensures Rebuilt(ToJson(t), depth) == Bare(t) <==> TextsOk(t)
  {
    var keys, items, n := t.shape.keys, t.items, |t.items|;
    var m := Members(keys, items, n);
    var a, b := RebuiltMembers(m.0, m.1, |m.0|, depth + 1), BareItems(items, n);
    assert Rebuilt(ToJson(t), depth) == BObject(a.0, a.1) && Bare(t) == BObject(keys, b);
    assert TextsOk(t) <==> (forall k :: k in keys ==> WellFormed(k)) && forall i :: 0 <= i < n ==> TextsOk(items[i]);
    hide *;
    if forall k :: k in keys ==> WellFormed(k) {
      KeysDistinct(t);
      MembersKept(keys, items, n);
    }
    MembersDistinct(keys, items, n);
    RebuiltMemberAt(m.0, m.1, |m.0|, depth + 1);
    if |m.0| == n {
      ObjectParts(keys, items, m, a, b, depth + 1);
    }
  }

  lemma KeysDistinct(t: JsTree)
    requires t.Node? && t.shape.Obj? && ShapeOk(t.shape, |t.items|)
    ensures Distinct(t.shape.keys) && |t.shape.keys| == |t.items|
  {
  }

  /** With no name lost, the parts decide. */
  lemma ObjectParts(keys: seq<Key>, items: seq<JsTree>, m: (seq<string>, seq<Json>), a: (seq<Key>, seq<PlainJs>), b: seq<PlainJs>, depth: nat)
    requires |keys| == |items| == |m.0| == |m.1| == |a.0| == |a.1| && m == Members(keys, items, |items|) && b == BareItems(items, |items|)
    requires forall i :: 0 <= i < |items| ==> a.0[i] == ToUnits(m.0[i]) && a.1[i] == Rebuilt(m.1[i], depth)
    requires forall i :: 0 <= i < |items| ==> (Rebuilt(ToJson(items[i]), depth) == Bare(items[i]) <==> TextsOk(items[i]))
    ensures a.0 == keys <==> forall k :: k in keys ==> WellFormed(k)
    ensures a.1 == b <==> forall i :: 0 <= i < |items| ==> TextsOk(items[i])
  {
    hide *;
    var n := |items|;
    MembersFull(keys, items, n);
    forall i | 0 <= i < n
      ensures a.0[i] == keys[i] <==> WellFormed(keys[i])
      ensures a.1[i] == b[i] <==> TextsOk(items[i])
    {
      ThereAndBack(keys[i]);
      BareItemAt(items, n, i);
    }
    if a.0 != keys {
      var i :| 0 <= i < n && a.0[i] != keys[i];
      assert keys[i] in keys;
    }
    if a.1 != b {
      var i :| 0 <= i < n && a.1[i] != b[i];
    }
  }

  /** There and back: the fast conversion and the rebuilding, on any heap with any hashes. */
  method ThereAndBackAgain(heap: Heap, h: Hash, value: Value) returns (r: Option<PlainJs>)
    requires HeapOk(heap) && (value.Ref? ==> value.r in heap)
    ensures r.Some? <==> exists t :: Unfolds(heap, value, t) && Acceptable(h, t)
    ensures forall t :: Unfolds(heap, value, t) && r.Some? ==> (r.value == Bare(t) <==> TextsOk(t))
  {
    var j := FastJson(heap, h, value);
    if j.None? {
      return None;
    }
    ghost var t :| Unfolds(heap, value, t) && Acceptable(h, t);
    UnfoldedShapes(heap, value, t);
    RoundTrip(t, 64, 0);
    ProperJson(t);
    var v := JsonToV8Plain(j.value, 0);
    r := Some(v);
    forall u | Unfolds(heap, value, u) ensures u == t {
      UnfoldsUnique(heap, value, u, t);
    }
  }

  lemma {:induction false} ProperJson(t: JsTree)
    ensures Proper(ToJson(t))
    decreases t, 0
  {
    match t
    case Leaf(_) =>
    case Node(_, Arr, items) =>
      forall i | 0 <= i < |items| ensures Proper(JsonItems(items, |items|)[i]) {
        JsonItemAt(items, |items|, i);
        ProperJson(items[i]);
      }
    case Node(_, Obj(keys), items) =>
      var n := if |keys| <= |items| then |keys| else |items|;
      var m := Members(keys, items, n);
      MembersProper(keys, items, n);
      MembersDistinct(keys, items, n);
      assert ToJson(t) == JObject(m.0, m.1);
      forall i | 0 <= i < |m.1| ensures Proper(m.1[i]) {
        assert m.1[i] in m.1;
      }
  }

  lemma {:induction false} MembersProper(keys: seq<Key>, items: seq<JsTree>, n: nat)
    requires n <= |keys| && n <= |items|
    ensures var m := Members(keys, items, n); forall x :: x in m.1 ==> Proper(x)
    decreases items, n
  {
    if n > 0 {
      MembersProper(keys, items, n - 1);
      ProperJson(items[n - 1]);
      Inserted(Members(keys, items, n - 1), Lossy(keys[n - 1]), ToJson(items[n - 1]));
      hide Proper, ToJson, Insert;
    }
  }
}
