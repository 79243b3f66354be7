/**
  Search trees over heap nodes.  Keys and values never change, so order is a
  property of the tree value alone; only the links live in the heap.
*/
module SplayShapes {

  type Value = int

  class Node {
    const key: real
    const value: Value
    var left: Node?
    var right: Node?

    constructor (key: real, value: Value)
      ensures this.key == key && this.value == value && left == null && right == null
    {
      this.key := key;
      this.value := value;
      left := null;
      right := null;
    }
  }

  datatype Tree = Leaf | Branch(left: Tree, node: Node, right: Tree)

  function Nodes(t: Tree): set<Node> {
    match t
    case Leaf => {}
    case Branch(l, n, r) => Nodes(l) + {n} + Nodes(r)
  }

  /** The nodes from left to right. */
  function Order(t: Tree): seq<Node> {
    match t
    case Leaf => []
    case Branch(l, n, r) => Order(l) + [n] + Order(r)
  }

  /** The links below n are those of t. */
  ghost predicate Shape(n: Node?, t: Tree)
    reads Nodes(t)
  {
    match t
    case Leaf => n == null
    case Branch(l, x, r) => n == x && Shape(x.left, l) && Shape(x.right, r)
  }

  function ToSet(s: seq<Node>): set<Node> {
    set x | x in s
  }

  ghost predicate SetBelow(xs: set<Node>, k: real) {
    forall x :: x in xs ==> x.key < k
  }

  ghost predicate SetAbove(xs: set<Node>, k: real) {
    forall x :: x in xs ==> k < x.key
  }

  ghost predicate Below(t: Tree, k: real) {
    SetBelow(Nodes(t), k)
  }

  ghost predicate Above(t: Tree, k: real) {
    SetAbove(Nodes(t), k)
  }

  ghost predicate Bst(t: Tree) {
    t.Branch? ==> Bst(t.left) && Bst(t.right) && Below(t.left, t.node.key) && Above(t.right, t.node.key)
  }

  lemma {:induction false} OrderNodes(t: Tree)
    ensures ToSet(Order(t)) == Nodes(t)
  {
    if t.Branch? {
      OrderNodes(t.left);
      OrderNodes(t.right);
      assert ToSet(Order(t)) == ToSet(Order(t.left)) + {t.node} + ToSet(Order(t.right));
    }
  }

  ghost predicate Ascending(s: seq<Node>) {
    forall i, j :: 0 <= i < j < |s| ==> s[i].key < s[j].key
  }

  lemma AscendingParts(l: seq<Node>, n: Node, r: seq<Node>)
    requires Ascending(l + [n] + r)
    ensures Ascending(l) && Ascending(r) && SetBelow(ToSet(l), n.key) && SetAbove(ToSet(r), n.key)
  {
    var s := l + [n] + r;
    assert s[|l|] == n;
    forall i, j | 0 <= i < j < |l| ensures l[i].key < l[j].key {
      assert s[i] == l[i] && s[j] == l[j];
    }
    forall i, j | 0 <= i < j < |r| ensures r[i].key < r[j].key {
      assert s[|l| + 1 + i] == r[i] && s[|l| + 1 + j] == r[j];
    }
    forall x | x in ToSet(l) ensures x.key < n.key {
      var i :| 0 <= i < |l| && l[i] == x;
      assert s[i] == x;
    }
    forall x | x in ToSet(r) ensures n.key < x.key {
      var i :| 0 <= i < |r| && r[i] == x;
      assert s[|l| + 1 + i] == x;
    }
  }

  lemma AscendingWhole(l: seq<Node>, n: Node, r: seq<Node>)
    requires Ascending(l) && Ascending(r) && SetBelow(ToSet(l), n.key) && SetAbove(ToSet(r), n.key)
    ensures Ascending(l + [n] + r)
  {
    var s := l + [n] + r;
    forall i, j | 0 <= i < j < |s| ensures s[i].key < s[j].key {
      assert i < |l| ==> s[i] == l[i] && l[i] in ToSet(l);
      assert j > |l| ==> s[j] == r[j - |l| - 1] && r[j - |l| - 1] in ToSet(r);
      assert j < |l| ==> s[j] == l[j];
      assert i > |l| ==> s[i] == r[i - |l| - 1];
    }
  }

  lemma AscendingJoin(l: seq<Node>, n: Node, r: seq<Node>)
    ensures Ascending(l + [n] + r) <==>
            Ascending(l) && Ascending(r) && SetBelow(ToSet(l), n.key) && SetAbove(ToSet(r), n.key)
  {
    if Ascending(l + [n] + r) {
      AscendingParts(l, n, r);
    }
    if Ascending(l) && Ascending(r) && SetBelow(ToSet(l), n.key) && SetAbove(ToSet(r), n.key) {
      AscendingWhole(l, n, r);
    }
  }

  /** A search tree lists its keys in ascending order, and only such a tree does. */
  lemma {:induction false} BstAscending(t: Tree)
    ensures Bst(t) <==> Ascending(Order(t))
  {
    if t.Branch? {
      hide Ascending;
      BstAscending(t.left);
      BstAscending(t.right);
      OrderNodes(t.left);
      OrderNodes(t.right);
      AscendingJoin(Order(t.left), t.node, Order(t.right));
    }
  }

  // ----- the finite map a tree stands for -----

  function Contents(s: seq<Node>): map<real, Value> {
    if s == [] then map[] else Contents(s[..|s| - 1])[s[|s| - 1].key := s[|s| - 1].value]
  }

  /** In ascending order every node is found under its key. */
  lemma {:induction false} ContentsHas(s: seq<Node>, i: nat)
    requires Ascending(s) && i < |s|
    ensures s[i].key in Contents(s) && Contents(s)[s[i].key] == s[i].value
  {
    if i < |s| - 1 {
      ContentsHas(s[..|s| - 1], i);
    }
  }

  /** Nothing else is found. */
  lemma {:induction false} ContentsOnly(s: seq<Node>, k: real) returns (i: nat)
    requires k in Contents(s)
    ensures i < |s| && s[i].key == k
  {
    if s[|s| - 1].key == k {
      i := |s| - 1;
    } else {
      i := ContentsOnly(s[..|s| - 1], k);
    }
  }

  /** A map with exactly the pairs of an ascending list. */
  lemma ContentsOf(s: seq<Node>, m: map<real, Value>)
    requires Ascending(s)
    requires forall i :: 0 <= i < |s| ==> s[i].key in m && m[s[i].key] == s[i].value
    requires forall k :: k in m ==> exists i :: 0 <= i < |s| && s[i].key == k
    ensures m == Contents(s)
  {
    forall k: real ensures k in m.Keys <==> k in Contents(s).Keys {
      if k in m {
        var i :| 0 <= i < |s| && s[i].key == k;
        ContentsHas(s, i);
      }
      if k in Contents(s) {
        var i := ContentsOnly(s, k);
      }
    }
    forall k | k in m ensures m[k] == Contents(s)[k] {
      var i :| 0 <= i < |s| && s[i].key == k;
      ContentsHas(s, i);
    }
  }

  // ----- the two trees being built by a splay -----

  /** The right spine of the left tree: each node with its left subtree, the root first. */
  type Spine = seq<(Node, Tree)>

  function LeftTree(ls: Spine, t: Tree): Tree {
    if ls == [] then t else Branch(ls[0].1, ls[0].0, LeftTree(ls[1..], t))
  }

  /** The left spine of the right tree: each node with its right subtree, the root first. */
  function RightTree(rs: Spine, t: Tree): Tree {
    if rs == [] then t else Branch(RightTree(rs[1..], t), rs[0].0, rs[0].1)
  }

  lemma {:induction false} LeftTreeSnoc(ls: Spine, x: (Node, Tree), t: Tree)
    ensures LeftTree(ls + [x], t) == LeftTree(ls, Branch(x.1, x.0, t))
  {
    if ls == [] {
      assert ls + [x] == [x] && [x][1..] == [];
    } else {
      assert (ls + [x])[1..] == ls[1..] + [x];
      LeftTreeSnoc(ls[1..], x, t);
    }
  }

  lemma {:induction false} RightTreeSnoc(rs: Spine, x: (Node, Tree), t: Tree)
    ensures RightTree(rs + [x], t) == RightTree(rs, Branch(t, x.0, x.1))
  {
    if rs == [] {
      assert rs + [x] == [x] && [x][1..] == [];
    } else {
      assert (rs + [x])[1..] == rs[1..] + [x];
      RightTreeSnoc(rs[1..], x, t);
    }
  }

  /** All parts of a spine below a key. */
  ghost predicate SpineBelow(ls: Spine, k: real) {
    forall i :: 0 <= i < |ls| ==> ls[i].0.key < k && Below(ls[i].1, k)
  }

  ghost predicate SpineAbove(rs: Spine, k: real) {
    forall i :: 0 <= i < |rs| ==> k < rs[i].0.key && Above(rs[i].1, k)
  }

  /** Later spine entries lie above earlier ones, and each node above its own subtree. */
  ghost predicate LeftSorted(ls: Spine) {
    forall i :: 0 <= i < |ls| ==> Bst(ls[i].1) && Below(ls[i].1, ls[i].0.key) && SpineBelow(ls[..i], ls[i].0.key)
  }

  ghost predicate RightSorted(rs: Spine) {
    forall i :: 0 <= i < |rs| ==> Bst(rs[i].1) && Above(rs[i].1, rs[i].0.key) && SpineAbove(rs[..i], rs[i].0.key)
  }

  function SpineNodes(ls: Spine): (r: set<Node>)
    ensures forall i :: 0 <= i < |ls| ==> ls[i].0 in r && Nodes(ls[i].1) <= r
  {
    if ls == [] then {} else {ls[0].0} + Nodes(ls[0].1) + SpineNodes(ls[1..])
  }

  /** The heap links of a left spine; the last right link is still open. */
  ghost predicate LeftLinked(top: Node?, ls: Spine)
    reads SpineNodes(ls)
  {
    && (|ls| > 0 ==> top == ls[0].0)
    && (forall i :: 0 <= i < |ls| ==> Shape(ls[i].0.left, ls[i].1))
    && (forall i :: 0 <= i < |ls| - 1 ==> ls[i].0.right == ls[i + 1].0)
  }

  ghost predicate RightLinked(top: Node?, rs: Spine)
    reads SpineNodes(rs)
  {
    && (|rs| > 0 ==> top == rs[0].0)
    && (forall i :: 0 <= i < |rs| ==> Shape(rs[i].0.right, rs[i].1))
    && (forall i :: 0 <= i < |rs| - 1 ==> rs[i].0.left == rs[i + 1].0)
  }

  /** Closing the open link gives the tree. */
  lemma {:induction false} LeftClosed(top: Node?, ls: Spine, t: Tree)
    requires LeftLinked(top, ls)
    requires if ls == [] then Shape(top, t) else Shape(ls[|ls| - 1].0.right, t)
    ensures Shape(top, LeftTree(ls, t))
  {
    if |ls| == 1 {
      assert ls[1..] == [];
    } else if |ls| > 1 {
      LeftClosed(ls[0].0.right, ls[1..], t);
    }
  }

  lemma {:induction false} RightClosed(top: Node?, rs: Spine, t: Tree)
    requires RightLinked(top, rs)
    requires if rs == [] then Shape(top, t) else Shape(rs[|rs| - 1].0.left, t)
    ensures Shape(top, RightTree(rs, t))
  {
    if |rs| == 1 {
      assert rs[1..] == [];
    } else if |rs| > 1 {
      RightClosed(rs[0].0.left, rs[1..], t);
    }
  }

  lemma {:induction false} LeftTreeNodes(ls: Spine, t: Tree)
    ensures Nodes(LeftTree(ls, t)) == SpineNodes(ls) + Nodes(t)
  {
    if ls != [] {
      LeftTreeNodes(ls[1..], t);
    }
  }

  lemma {:induction false} RightTreeNodes(rs: Spine, t: Tree)
    ensures Nodes(RightTree(rs, t)) == SpineNodes(rs) + Nodes(t)
  {
    if rs != [] {
      RightTreeNodes(rs[1..], t);
    }
  }

  lemma SpineNodesSnoc(ls: Spine, x: (Node, Tree))
    ensures SpineNodes(ls + [x]) == SpineNodes(ls) + {x.0} + Nodes(x.1)
  {
    if ls == [] {
      assert ls + [x] == [x] && [x][1..] == [];
    } else {
      assert (ls + [x])[1..] == ls[1..] + [x];
      SpineNodesSnoc(ls[1..], x);
    }
  }
}
