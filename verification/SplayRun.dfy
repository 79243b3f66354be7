/**
  The Splay benchmark as a client of the tree: setup, replacement and the final check.
  Random keys are an input: the stream of draws.
*/
module SplayRuns {
  import opened Wrappers
  import opened SplayShapes
  import opened SplayTrees

  /** One key in, one key out. */
  lemma SizeKept(m: map<real, Value>, key: real, value: Value, out: real)
    requires key !in m && out in m[key := value]
    ensures |m[key := value] - {out}| == |m|
  {
    var u := m[key := value];
    assert u.Keys == m.Keys + {key} && |u.Keys| == |m| + 1;
    assert (u - {out}).Keys == u.Keys - {out};
    assert |m.Keys| == |m| && |(u - {out}).Keys| == |u - {out}|;
  }

  /** The different values among the first n draws. */
  ghost function Drawn(draws: seq<real>, n: nat): set<real>
    requires n <= |draws|
  {
    set k | k in draws[..n]
  }

  lemma OneMoreDrawn(draws: seq<real>, n: nat)
    requires n < |draws|
    ensures Drawn(draws, n + 1) == Drawn(draws, n) + {draws[n]}
  {
    assert draws[..n + 1] == draws[..n] + [draws[n]];
  }

  /** Of the keys below a new one the greatest goes; without any, the new key goes itself. */
  ghost predicate Goes(m: map<real, Value>, key: real, out: real) {
    if exists k :: k in m && k < key then out in m && out < key && forall k :: k in m && k < key ==> k <= out
    else out == key
  }

  /** The new key comes, and one key goes. */
  ghost predicate Replaced(m: map<real, Value>, key: real, payload: Value, now: map<real, Value>) {
    key !in m && exists out :: Goes(m, key, out) && now == m[key := payload] - {out}
  }

  /** The maps before, between and after the replacements for these keys. */
  ghost predicate Replacements(maps: seq<map<real, Value>>, keys: seq<real>, payload: Value) {
    |maps| == |keys| + 1 && forall i :: 0 <= i < |keys| ==> Replaced(maps[i], keys[i], payload, maps[i + 1])
  }

  lemma ReplacedMore(maps: seq<map<real, Value>>, keys: seq<real>, payload: Value, key: real, now: map<real, Value>)
    requires Replacements(maps, keys, payload) && Replaced(maps[|keys|], key, payload, now)
    ensures Replacements(maps + [now], keys + [key], payload)
  {
    hide Replaced;
    forall i | 0 <= i < |keys| + 1 ensures Replaced((maps + [now])[i], (keys + [key])[i], payload, (maps + [now])[i + 1]) {
      if i < |keys| {
        assert Replaced(maps[i], keys[i], payload, maps[i + 1]);
      }
    }
  }

  lemma NoneReplaced(m: map<real, Value>, payload: Value)
    ensures Replacements([m], [], payload)
  {
  }

  /** The greatest smaller key of the tree with the new key is that of the tree before. */
  lemma Gone(before: map<real, Value>, key: real, payload: Value, after: map<real, Value>, out: real)
    requires key !in before && after == before[key := payload] && out in after
    requires if out == key then forall k :: k in after ==> key <= k else out < key && forall k :: k in after && k < key ==> k <= out
    ensures Replaced(before, key, payload, after - {out})
  {
    assert forall k :: k in before ==> k in after;
    assert out != key ==> out in before;
    assert Goes(before, key, out);
  }

  class Benchmark {
    const treeSize: nat
    const draws: seq<real>
    var used: nat
    var splayTree: SplayTree

    ghost predicate Valid()
      reads this, splayTree, splayTree.nodes
    {
      used <= |draws| && splayTree.Valid() && splayTree.Map().Keys <= Drawn(draws, used)
    }

    /** Draws until an unused key comes up and inserts it; None when the draws run out first. */
    method InsertNewNode(payload: Value) returns (r: Option<real>)
      requires Valid()
      modifies this, splayTree, splayTree.nodes
      ensures Valid() && splayTree == old(splayTree) && fresh(splayTree.nodes - old(splayTree.nodes))
      ensures r.None? ==> splayTree.Map() == old(splayTree.Map()) && used == |draws| && Drawn(draws, used) == Drawn(draws, old(used))
      ensures r.Some? ==> r.value !in old(splayTree.Map()) && splayTree.Map() == old(splayTree.Map())[r.value := payload]
      ensures r.Some? ==> used <= |draws| && |Drawn(draws, used)| <= |Drawn(draws, old(used))| + 1
      ensures old(used) <= used && forall k :: old(used) <= k < (if r.Some? then used - 1 else used) ==> draws[k] in old(splayTree.Map())
      ensures r.Some? ==> old(used) < used && r.value == draws[used - 1]
    {
      hide Contents, Order, Bst, Shape, Drawn;
      ghost var tree, drawn := splayTree, Drawn(draws, used);
      while true
        modifies this, splayTree, splayTree.nodes
        invariant Valid() && splayTree == tree && splayTree.Map() == old(splayTree.Map())
        invariant splayTree.nodes == old(splayTree.nodes) && Drawn(draws, used) == drawn
        invariant old(used) <= used && forall k :: old(used) <= k < used ==> draws[k] in old(splayTree.Map())
        decreases |draws| - used
      {
        if used == |draws| {
          return None;
        }
        var key := draws[used];
        OneMoreDrawn(draws, used);
        used := used + 1;
        var node := splayTree.Find(key);
        if node != null {
          assert drawn + {key} == drawn;
        } else {
          splayTree.Insert(key, payload);
          return Some(key);
        }
      }
    }

    /** A tree of the configured size; the draws suffice if they bring as many new values. */
    method Setup(payload: Value) returns (ok: bool)
      requires used <= |draws|
      modifies this
      ensures Valid() && fresh(splayTree) && fresh(splayTree.nodes)
      ensures ok ==> |splayTree.Map()| == treeSize && |Drawn(draws, used)| <= |Drawn(draws, old(used))| + treeSize
      ensures !ok ==> |Drawn(draws, |draws|)| < |Drawn(draws, old(used))| + treeSize
    {
      hide Contents, Order, Bst, Shape, Drawn;
      splayTree := new SplayTree();
      ghost var tree := splayTree;
      var i := 0;
      label start:
      while i < treeSize
        modifies this, splayTree, splayTree.nodes
        invariant i <= treeSize
        invariant Valid() && splayTree == tree && fresh@start(splayTree.nodes)
        invariant |splayTree.Map()| == i && |Drawn(draws, used)| <= |Drawn(draws, old(used))| + i
      {
        var r := InsertNewNode(payload);
        if r.None? {
          return false;
        }
        i := i + 1;
      }
      ok := true;
    }

    /** One replacement: a new key comes, and its greatest smaller one goes. */
    method Replace(payload: Value) returns (key: Option<real>)
      requires Valid()
      modifies this, splayTree, splayTree.nodes
      ensures Valid() && splayTree == old(splayTree) && fresh(splayTree.nodes - old(splayTree.nodes))
      ensures key.None? ==> splayTree.Map() == old(splayTree.Map()) && used == |draws| && Drawn(draws, used) == Drawn(draws, old(used))
      ensures key.Some? ==> Replaced(old(splayTree.Map()), key.value, payload, splayTree.Map())
      ensures key.Some? ==> |splayTree.Map()| == |old(splayTree.Map())| && |Drawn(draws, used)| <= |Drawn(draws, old(used))| + 1
    {
      hide Contents, Order, Bst, Shape, Replaced, Drawn;
      ghost var before := splayTree.Map();
      key := InsertNewNode(payload);
      if key.None? {
        return;
      }
      ghost var after := splayTree.Map();
      var greatest := splayTree.FindGreatestLessThan(key.value);
      var removed;
      if greatest == null {
        removed := splayTree.Remove(key.value);
      } else {
        removed := splayTree.Remove(greatest.key);
      }
      Gone(before, key.value, payload, after, removed.value.key);
      SizeKept(before, key.value, payload, removed.value.key);
    }

    /**
      Replaces keys one by one.  The tree keeps its size, and new values among the draws
      suffice for as many replacements.
    */
    method Run(modifications: nat, payload: Value) returns (ok: bool, ghost keys: seq<real>, ghost maps: seq<map<real, Value>>)
      requires Valid()
      modifies this, splayTree, splayTree.nodes
      ensures Valid() && splayTree == old(splayTree)
      ensures |maps| == |keys| + 1 && Replacements(maps, keys, payload) && maps[0] == old(splayTree.Map()) && maps[|keys|] == splayTree.Map()
      ensures |keys| <= modifications && (ok ==> |keys| == modifications)
      ensures |splayTree.Map()| == |old(splayTree.Map())|
      ensures !ok ==> |Drawn(draws, |draws|)| < |Drawn(draws, old(used))| + modifications
    {
      NoneReplaced(splayTree.Map(), payload);
      hide Contents, Order, Bst, Shape, Replacements, Replaced, Drawn;
      ghost var tree := splayTree;
      keys, maps := [], [splayTree.Map()];
      var i := 0;
      while i < modifications
        modifies this, splayTree, splayTree.nodes
        invariant Valid() && splayTree == tree && fresh(splayTree.nodes - old(splayTree.nodes))
        invariant |keys| == i && |maps| == i + 1 && Replacements(maps, keys, payload)
        invariant maps[0] == old(splayTree.Map()) && maps[i] == splayTree.Map()
        invariant i <= modifications && |splayTree.Map()| == |old(splayTree.Map())|
        invariant |Drawn(draws, used)| <= |Drawn(draws, old(used))| + i
      {
        var key := Replace(payload);
        if key.None? {
          return false, keys, maps;
        }
        ReplacedMore(maps, keys, payload, key.value, splayTree.Map());
        keys, maps := keys + [key.value], maps + [splayTree.Map()];
        i := i + 1;
      }
      ok := true;
    }

    /** The final check: the right number of keys, sorted and without repetition. */
    method TearDown() returns (error: Option<string>)
      requires Valid()
      ensures error.None? <==> |splayTree.Map()| == treeSize
    {
      var keys := splayTree.ExportKeys();
      if |keys| != treeSize {
        return Some("Splay tree has wrong size");
      }
      var i := 0;
      while i < |keys| - 1
        invariant 0 <= i
      {
        if keys[i] >= keys[i + 1] {
          return Some("Splay tree not sorted");
        }
        i := i + 1;
      }
      error := None;
    }

    constructor (treeSize: nat, draws: seq<real>)
      ensures this.treeSize == treeSize && this.draws == draws && Valid() && used == 0
      ensures fresh(splayTree) && fresh(splayTree.nodes)
    {
      this.treeSize := treeSize;
      this.draws := draws;
      used := 0;
      splayTree := new SplayTree();
    }
  }

  /** If the draws have enough different values, the benchmark ends without an error; the check at its end never fails. */
  method BenchmarkPasses(treeSize: nat, modifications: nat, draws: seq<real>, payload: Value) returns (error: Option<string>)
    ensures error.None? || error == Some("draws exhausted")
    ensures |Drawn(draws, |draws|)| >= treeSize + modifications ==> error.None?
  {
    var b := new Benchmark(treeSize, draws);
    var ok := b.Setup(payload);
    if !ok {
      return Some("draws exhausted");
    }
    ghost var keys, maps;
    ok, keys, maps := b.Run(modifications, payload);
    error := b.TearDown();
    if !ok {
      error := Some("draws exhausted");
    }
  }
}
