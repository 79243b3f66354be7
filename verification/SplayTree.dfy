/**
  The splay tree: top-down splaying by relinking nodes through one dummy node
  whose right link heads the left tree and whose left link heads the right tree.
*/
module SplayTrees {
  import opened Wrappers
  import opened SplayShapes

  // ----- the state of a splay, as far as it does not depend on links -----

  /** The parts lie around the current tree t, and the key's place is in t. */
  ghost predicate Placed(ls: Spine, rs: Spine, t: Tree, key: real) {
    && Bst(t) && LeftSorted(ls) && RightSorted(rs)
    && SpineBelow(ls, key) && SpineAbove(rs, key)
    && (forall x :: x in Nodes(t) ==> SpineBelow(ls, x.key) && SpineAbove(rs, x.key))
  }

  /** The nodes of all parts, from left to right. */
  function Whole(ls: Spine, t: Tree, rs: Spine): seq<Node> {
    Order(LeftTree(ls, Leaf)) + Order(t) + Order(RightTree(rs, Leaf))
  }

  lemma {:induction false} LeftOrder(ls: Spine, t: Tree)
    ensures Order(LeftTree(ls, t)) == Order(LeftTree(ls, Leaf)) + Order(t)
  {
    if ls != [] {
      LeftOrder(ls[1..], t);
    }
  }

  lemma {:induction false} RightOrder(rs: Spine, t: Tree)
    ensures Order(RightTree(rs, t)) == Order(t) + Order(RightTree(rs, Leaf))
  {
    if rs != [] {
      RightOrder(rs[1..], t);
    }
  }

  lemma BelowMono(t: Tree, j: real, k: real)
    requires Below(t, j) && j <= k
    ensures Below(t, k)
  {
  }

  lemma AboveMono(t: Tree, j: real, k: real)
    requires Above(t, j) && k <= j
    ensures Above(t, k)
  {
  }

  lemma LeftSortedSnoc(ls: Spine, x: (Node, Tree))
    requires LeftSorted(ls) && Bst(x.1) && Below(x.1, x.0.key) && SpineBelow(ls, x.0.key)
    ensures LeftSorted(ls + [x])
  {
    forall i | 0 <= i < |ls + [x]|
      ensures Bst((ls + [x])[i].1) && Below((ls + [x])[i].1, (ls + [x])[i].0.key) && SpineBelow((ls + [x])[..i], (ls + [x])[i].0.key)
    {
      assert (ls + [x])[..i] == if i < |ls| then ls[..i] else ls;
    }
  }

  lemma RightSortedSnoc(rs: Spine, x: (Node, Tree))
    requires RightSorted(rs) && Bst(x.1) && Above(x.1, x.0.key) && SpineAbove(rs, x.0.key)
    ensures RightSorted(rs + [x])
  {
    forall i | 0 <= i < |rs + [x]|
      ensures Bst((rs + [x])[i].1) && Above((rs + [x])[i].1, (rs + [x])[i].0.key) && SpineAbove((rs + [x])[..i], (rs + [x])[i].0.key)
    {
      assert (rs + [x])[..i] == if i < |rs| then rs[..i] else rs;
    }
  }

  /** The current node and its left subtree join the left tree. */
  lemma PlacedLinkLeft(ls: Spine, rs: Spine, t: Tree, key: real)
    requires Placed(ls, rs, t, key) && t.Branch? && t.node.key < key
    ensures Placed(ls + [(t.node, t.left)], rs, t.right, key)
  {
    hide LeftSorted, RightSorted, SpineAbove;
    var x := (t.node, t.left);
    LeftSortedSnoc(ls, x);
    BelowMono(t.left, t.node.key, key);
    forall y | y in Nodes(t.right) ensures SpineBelow(ls + [x], y.key) && SpineAbove(rs, y.key) {
      BelowMono(t.left, t.node.key, y.key);
      assert y in Nodes(t);
    }
  }

  lemma OrderLinkLeft(ls: Spine, rs: Spine, t: Tree)
    requires t.Branch?
    ensures Whole(ls + [(t.node, t.left)], t.right, rs) == Whole(ls, t, rs)
  {
    LeftTreeSnoc(ls, (t.node, t.left), Leaf);
    LeftOrder(ls, Branch(t.left, t.node, Leaf));
    assert Order(Branch(t.left, t.node, Leaf)) == Order(t.left) + [t.node];
  }

  /** The current node and its right subtree join the right tree. */
  lemma PlacedLinkRight(ls: Spine, rs: Spine, t: Tree, key: real)
    requires Placed(ls, rs, t, key) && t.Branch? && key < t.node.key
    ensures Placed(ls, rs + [(t.node, t.right)], t.left, key)
  {
    hide LeftSorted, RightSorted, SpineBelow;
    var x := (t.node, t.right);
    RightSortedSnoc(rs, x);
    AboveMono(t.right, t.node.key, key);
    forall y | y in Nodes(t.left) ensures SpineBelow(ls, y.key) && SpineAbove(rs + [x], y.key) {
      AboveMono(t.right, t.node.key, y.key);
      assert y in Nodes(t);
    }
  }

  lemma OrderLinkRight(ls: Spine, rs: Spine, t: Tree)
    requires t.Branch?
    ensures Whole(ls, t.left, rs + [(t.node, t.right)]) == Whole(ls, t, rs)
  {
    RightTreeSnoc(rs, (t.node, t.right), Leaf);
    RightOrder(rs, Branch(Leaf, t.node, t.right));
    assert Order(Branch(Leaf, t.node, t.right)) == [t.node] + Order(t.right);
  }

  function RotatedRight(t: Tree): Tree
    requires t.Branch? && t.left.Branch?
  {
    Branch(t.left.left, t.left.node, Branch(t.left.right, t.node, t.right))
  }

  function RotatedLeft(t: Tree): Tree
    requires t.Branch? && t.right.Branch?
  {
    Branch(Branch(t.left, t.node, t.right.left), t.right.node, t.right.right)
  }

  /** A rotation changes neither the nodes, nor their order, nor the search order. */
  lemma RotationKeeps(ls: Spine, rs: Spine, t: Tree, key: real)
    requires Placed(ls, rs, t, key) && t.Branch?
    ensures t.left.Branch? ==> Placed(ls, rs, RotatedRight(t), key) && Whole(ls, RotatedRight(t), rs) == Whole(ls, t, rs)
    ensures t.left.Branch? ==> Nodes(RotatedRight(t)) == Nodes(t)
    ensures t.right.Branch? ==> Placed(ls, rs, RotatedLeft(t), key) && Whole(ls, RotatedLeft(t), rs) == Whole(ls, t, rs)
    ensures t.right.Branch? ==> Nodes(RotatedLeft(t)) == Nodes(t)
  {
    if t.left.Branch? {
      RotateRightOrder(t);
      BstAscending(t);
      BstAscending(RotatedRight(t));
    }
    if t.right.Branch? {
      RotateLeftOrder(t);
      BstAscending(t);
      BstAscending(RotatedLeft(t));
    }
  }

  lemma Regroup(a: seq<Node>, x: Node, b: seq<Node>, y: Node, c: seq<Node>)
    ensures a + [x] + (b + [y] + c) == (a + [x] + b) + [y] + c
  {
    var l, r := a + [x] + (b + [y] + c), (a + [x] + b) + [y] + c;
    assert |l| == |r|;
    forall i | 0 <= i < |l| ensures l[i] == r[i] {
    }
  }

  lemma RotateRightOrder(t: Tree)
    requires t.Branch? && t.left.Branch?
    ensures Order(RotatedRight(t)) == Order(t)
  {
    Regroup(Order(t.left.left), t.left.node, Order(t.left.right), t.node, Order(t.right));
  }

  lemma RotateLeftOrder(t: Tree)
    requires t.Branch? && t.right.Branch?
    ensures Order(RotatedLeft(t)) == Order(t)
  {
    Regroup(Order(t.left), t.node, Order(t.right.left), t.right.node, Order(t.right.right));
  }

  /** The tree that is assembled in the end. */
  function Assembled(ls: Spine, t: Tree, rs: Spine): Tree
    requires t.Branch?
  {
    Branch(LeftTree(ls, t.left), t.node, RightTree(rs, t.right))
  }

  /** The tree that a splay for the key makes of these parts. */
  function Splayed(ls: Spine, t: Tree, rs: Spine, key: real): (r: Tree)
    requires t.Branch?
    ensures r.Branch?
    decreases t
  {
    if key < t.node.key then
      if t.left.Leaf? then Assembled(ls, t, rs)
      else if t.left.node.key <= key then Splayed(ls, t.left, rs + [(t.node, t.right)], key)
      else
        var u := RotatedRight(t);
        if u.left.Leaf? then Assembled(ls, u, rs) else Splayed(ls, u.left, rs + [(u.node, u.right)], key)
    else if t.node.key < key then
      if t.right.Leaf? then Assembled(ls, t, rs)
      else if key <= t.right.node.key then Splayed(ls + [(t.node, t.left)], t.right, rs, key)
      else
        var u := RotatedLeft(t);
        if u.right.Leaf? then Assembled(ls, u, rs) else Splayed(ls + [(u.node, u.left)], u.right, rs, key)
    else Assembled(ls, t, rs)
  }

  lemma AssembledOrder(ls: Spine, t: Tree, rs: Spine)
    requires t.Branch?
    ensures Order(Assembled(ls, t, rs)) == Whole(ls, t, rs)
  {
    LeftOrder(ls, t.left);
    RightOrder(rs, t.right);
  }

  /** The key is at the root, or absent with the root its neighbour in order. */
  ghost predicate AtRoot(t: Tree, key: real)
    requires t.Branch?
  {
    || t.node.key == key
    || (key < t.node.key && Below(t.left, key))
    || (t.node.key < key && Above(t.right, key))
  }

  /** Where the loop stops, the neighbours of the key's place are known. */
  lemma StopsAtRoot(ls: Spine, t: Tree, rs: Spine, key: real)
    requires Placed(ls, rs, t, key) && t.Branch?
    requires t.node.key == key || (key < t.node.key && t.left.Leaf?) || (t.node.key < key && t.right.Leaf?)
    ensures AtRoot(Assembled(ls, t, rs), key)
  {
    LeftTreeNodes(ls, t.left);
    RightTreeNodes(rs, t.right);
    SpineBelowNodes(ls, key);
    SpineAboveNodes(rs, key);
  }

  lemma {:induction false} SpineBelowNodes(ls: Spine, k: real)
    requires SpineBelow(ls, k)
    ensures SetBelow(SpineNodes(ls), k)
  {
    if ls != [] {
      assert forall i :: 0 <= i < |ls[1..]| ==> ls[1..][i] == ls[i + 1];
      SpineBelowNodes(ls[1..], k);
    }
  }

  lemma {:induction false} SpineAboveNodes(rs: Spine, k: real)
    requires SpineAbove(rs, k)
    ensures SetAbove(SpineNodes(rs), k)
  {
    if rs != [] {
      assert forall i :: 0 <= i < |rs[1..]| ==> rs[1..][i] == rs[i + 1];
      SpineAboveNodes(rs[1..], k);
    }
  }

  // ----- the links -----

  function LastOr(s: Spine, dummy: Node): Node {
    if s == [] then dummy else s[|s| - 1].0
  }

  /** The heap during a splay: both spines hang from the dummy, their last links open. */
  ghost predicate Linked(dummy: Node, left: Node, right: Node, current: Node?, ls: Spine, rs: Spine, t: Tree)
    reads {dummy} + SpineNodes(ls) + SpineNodes(rs) + Nodes(t)
  {
    && dummy !in SpineNodes(ls) + SpineNodes(rs) + Nodes(t)
    && left == LastOr(ls, dummy) && right == LastOr(rs, dummy)
    && Shape(current, t)
    && LeftLinked(dummy.right, ls) && RightLinked(dummy.left, rs)
  }

  /** No node occurs twice among the parts. */
  lemma PartsDisjoint(ls: Spine, rs: Spine, t: Tree, key: real)
    requires Placed(ls, rs, t, key)
    ensures SpineNodes(ls) !! SpineNodes(rs) && SpineNodes(ls) !! Nodes(t) && SpineNodes(rs) !! Nodes(t)
  {
    SpineBelowNodes(ls, key);
    SpineAboveNodes(rs, key);
    forall x | x in Nodes(t) ensures x !in SpineNodes(ls) && x !in SpineNodes(rs) {
      SpineBelowNodes(ls, x.key);
      SpineAboveNodes(rs, x.key);
    }
  }

  /** Within the left tree: subtrees hold no spine nodes, and the last spine node is in no other part. */
  lemma LeftDistinct(ls: Spine, i: nat)
    requires LeftSorted(ls) && i < |ls|
    ensures ls[|ls| - 1].0 !in Nodes(ls[i].1)
    ensures i < |ls| - 1 ==> ls[i].0 != ls[|ls| - 1].0
  {
    var last := ls[|ls| - 1].0;
    if i < |ls| - 1 {
      assert ls[..|ls| - 1][i] == ls[i];
    }
  }

  lemma RightDistinct(rs: Spine, i: nat)
    requires RightSorted(rs) && i < |rs|
    ensures rs[|rs| - 1].0 !in Nodes(rs[i].1)
    ensures i < |rs| - 1 ==> rs[i].0 != rs[|rs| - 1].0
  {
    var last := rs[|rs| - 1].0;
    if i < |rs| - 1 {
      assert rs[..|rs| - 1][i] == rs[i];
    }
  }

  /** Distinctness of the nodes whose links are written, from the order of the keys. */
  lemma LinkReady(ls: Spine, rs: Spine, t: Tree, key: real)
    requires Placed(ls, rs, t, key) && t.Branch?
    ensures SpineNodes(ls) !! SpineNodes(rs) && SpineNodes(ls) !! Nodes(t) && SpineNodes(rs) !! Nodes(t)
    ensures t.node !in Nodes(t.left) && t.node !in Nodes(t.right)
    ensures forall i :: 0 <= i < |ls| ==> ls[|ls| - 1].0 !in Nodes(ls[i].1) && (i < |ls| - 1 ==> ls[i].0 != ls[|ls| - 1].0)
    ensures forall i :: 0 <= i < |rs| ==> rs[|rs| - 1].0 !in Nodes(rs[i].1) && (i < |rs| - 1 ==> rs[i].0 != rs[|rs| - 1].0)
  {
    PartsDisjoint(ls, rs, t, key);
    forall i | 0 <= i < |ls|
      ensures ls[|ls| - 1].0 !in Nodes(ls[i].1) && (i < |ls| - 1 ==> ls[i].0 != ls[|ls| - 1].0)
    {
      LeftDistinct(ls, i);
    }
    forall i | 0 <= i < |rs|
      ensures rs[|rs| - 1].0 !in Nodes(rs[i].1) && (i < |rs| - 1 ==> rs[i].0 != rs[|rs| - 1].0)
    {
      RightDistinct(rs, i);
    }
  }

  lemma ShapeParts(n: Node, t: Tree)
    requires Shape(n, t)
    ensures n == t.node && Shape(n.left, t.left) && Shape(n.right, t.right)
    ensures Nodes(t) == Nodes(t.left) + {t.node} + Nodes(t.right)
  {
  }

  lemma LeftLinkedSnoc(top: Node?, ls: Spine, x: (Node, Tree))
    requires LeftLinked(top, ls) && Shape(x.0.left, x.1)
    requires if ls == [] then top == x.0 else ls[|ls| - 1].0.right == x.0
    ensures LeftLinked(top, ls + [x])
  {
    hide Shape, SpineNodes;
  }

  lemma RightLinkedSnoc(top: Node?, rs: Spine, x: (Node, Tree))
    requires RightLinked(top, rs) && Shape(x.0.right, x.1)
    requires if rs == [] then top == x.0 else rs[|rs| - 1].0.left == x.0
    ensures RightLinked(top, rs + [x])
  {
    hide Shape, SpineNodes;
  }

  /** The first write of a link, and what it leaves: only the open link of one tree has changed. */
  method WriteRight(dummy: Node, left: Node, target: Node?, ghost current: Node, ghost ls: Spine, ghost rs: Spine, ghost t: Tree, ghost key: real)
    requires Placed(ls, rs, t, key) && t.Branch? && current == t.node && dummy !in SpineNodes(ls) + SpineNodes(rs) + Nodes(t)
    requires left == LastOr(ls, dummy) && LeftLinked(dummy.right, ls) && RightLinked(dummy.left, rs)
    requires Shape(current.left, t.left) && Shape(current.right, t.right)
    modifies left`right
    ensures LeftLinked(dummy.right, ls) && RightLinked(dummy.left, rs) && left.right == target
    ensures Shape(current.left, t.left) && Shape(current.right, t.right)
  {
    LinkReady(ls, rs, t, key);
    hide Placed, SpineNodes;
    left.right := target;
  }

  method WriteLeft(dummy: Node, right: Node, current: Node, ghost ls: Spine, ghost rs: Spine, ghost t: Tree, ghost key: real)
    requires Placed(ls, rs, t, key) && t.Branch? && current == t.node && dummy !in SpineNodes(ls) + SpineNodes(rs) + Nodes(t)
    requires right == LastOr(rs, dummy) && LeftLinked(dummy.right, ls) && RightLinked(dummy.left, rs)
    requires Shape(current.left, t.left) && Shape(current.right, t.right)
    modifies right`left
    ensures LeftLinked(dummy.right, ls) && RightLinked(dummy.left, rs) && right.left == current
    ensures Shape(current.left, t.left) && Shape(current.right, t.right)
  {
    LinkReady(ls, rs, t, key);
    hide Placed, SpineNodes;
    right.left := current;
  }

  /** `left.right = current` */
  method LinkLeft(dummy: Node, left: Node, right: Node, current: Node, ghost ls: Spine, ghost rs: Spine, ghost t: Tree, ghost key: real)
    requires Placed(ls, rs, t, key) && t.Branch? && Linked(dummy, left, right, current, ls, rs, t)
    modifies left`right
    ensures Linked(dummy, current, right, current.right, ls + [(t.node, t.left)], rs, t.right)
  {
    ShapeParts(current, t);
    SpineNodesSnoc(ls, (t.node, t.left));
    hide Placed, Shape, Nodes, SpineNodes, LeftLinked, RightLinked;
    WriteRight(dummy, left, current, current, ls, rs, t, key);
    LeftLinkedSnoc(dummy.right, ls, (t.node, t.left));
  }

  /** `right.left = current` */
  method LinkRight(dummy: Node, left: Node, right: Node, current: Node, ghost ls: Spine, ghost rs: Spine, ghost t: Tree, ghost key: real)
    requires Placed(ls, rs, t, key) && t.Branch? && Linked(dummy, left, right, current, ls, rs, t)
    modifies right`left
    ensures Linked(dummy, left, current, current.left, ls, rs + [(t.node, t.right)], t.left)
  {
    ShapeParts(current, t);
    SpineNodesSnoc(rs, (t.node, t.right));
    hide Placed, Shape, Nodes, SpineNodes, LeftLinked, RightLinked;
    WriteLeft(dummy, right, current, ls, rs, t, key);
    RightLinkedSnoc(dummy.left, rs, (t.node, t.right));
  }

  /** The two rotations at the current node. */
  method RotateRight(current: Node, ghost t: Tree) returns (top: Node)
    requires Shape(current, t) && Bst(t) && t.left.Branch?
    modifies Nodes(t)
    ensures Shape(top, RotatedRight(t))
  {
    assert t.node !in Nodes(t.left) && t.node !in Nodes(t.right) && t.left.node !in Nodes(t.right);
    assert t.left.node !in Nodes(t.left.left) && t.left.node !in Nodes(t.left.right);
    var tmp := current.left;
    current.left := tmp.right;
    tmp.right := current;
    top := tmp;
  }

  method RotateLeft(current: Node, ghost t: Tree) returns (top: Node)
    requires Shape(current, t) && Bst(t) && t.right.Branch?
    modifies Nodes(t)
    ensures Shape(top, RotatedLeft(t))
  {
    assert t.node !in Nodes(t.left) && t.node !in Nodes(t.right) && t.right.node !in Nodes(t.left);
    assert t.right.node !in Nodes(t.right.left) && t.right.node !in Nodes(t.right.right);
    var tmp := current.right;
    current.right := tmp.left;
    tmp.left := current;
    top := tmp;
  }

  /** `left.right = current.left` and `right.left = current.right`, one after the other. */
  method CloseLeft(dummy: Node, left: Node, right: Node, current: Node, ghost ls: Spine, ghost rs: Spine, ghost t: Tree, ghost key: real)
    requires Placed(ls, rs, t, key) && t.Branch? && Linked(dummy, left, right, current, ls, rs, t)
    modifies left`right
    ensures Shape(dummy.right, LeftTree(ls, t.left))
    ensures RightLinked(dummy.left, rs) && Shape(current.right, t.right)
  {
    ShapeParts(current, t);
    hide Placed, LeftTree, RightTree, SpineNodes, Nodes, Shape, LeftLinked, RightLinked;
    WriteRight(dummy, left, current.left, current, ls, rs, t, key);
    LeftClosed(dummy.right, ls, t.left);
  }

  method CloseRight(dummy: Node, right: Node, current: Node, ghost ls: Spine, ghost rs: Spine, ghost t: Tree, ghost key: real)
    requires Placed(ls, rs, t, key) && t.Branch? && current == t.node && right == LastOr(rs, dummy)
    requires dummy !in SpineNodes(ls) + SpineNodes(rs) + Nodes(t)
    requires RightLinked(dummy.left, rs) && Shape(current.right, t.right) && Shape(dummy.right, LeftTree(ls, t.left))
    modifies right`left
    ensures Shape(dummy.left, RightTree(rs, t.right)) && Shape(dummy.right, LeftTree(ls, t.left))
  {
    LinkReady(ls, rs, t, key);
    LeftTreeNodes(ls, t.left);
    hide Placed, LeftTree, RightTree, SpineNodes;
    right.left := current.right;
    RightClosed(dummy.left, rs, t.right);
  }

  /** The four writes that join left tree, current node and right tree. */
  method Assemble(dummy: Node, left: Node, right: Node, current: Node, ghost ls: Spine, ghost rs: Spine, ghost t: Tree, ghost key: real)
    requires Placed(ls, rs, t, key) && t.Branch? && Linked(dummy, left, right, current, ls, rs, t)
    modifies left`right, right`left, current
    ensures Shape(current, Assembled(ls, t, rs))
  {
    LinkReady(ls, rs, t, key);
    LeftTreeNodes(ls, t.left);
    RightTreeNodes(rs, t.right);
    hide Placed, SpineNodes, LeftTree, RightTree, LeftLinked, RightLinked;
    CloseLeft(dummy, left, right, current, ls, rs, t, key);
    CloseRight(dummy, right, current, ls, rs, t, key);
    current.left := dummy.right;
    current.right := dummy.left;
  }

  /** The rotations, seen from the whole state. */
  method RotateRightLinked(dummy: Node, left: Node, right: Node, current: Node, ghost ls: Spine, ghost rs: Spine, ghost t: Tree, ghost key: real,
                           ghost all: set<Node>)
    returns (top: Node)
    requires SpineNodes(ls) + SpineNodes(rs) + Nodes(t) == all
    requires Placed(ls, rs, t, key) && t.Branch? && t.left.Branch? && Linked(dummy, left, right, current, ls, rs, t)
    modifies Nodes(t)
    ensures Linked(dummy, left, right, top, ls, rs, RotatedRight(t))
    ensures Placed(ls, rs, RotatedRight(t), key) && Whole(ls, RotatedRight(t), rs) == Whole(ls, t, rs)
    ensures Nodes(RotatedRight(t)) == Nodes(t)
  {
    RotationKeeps(ls, rs, t, key);
    LinkReady(ls, rs, t, key);
    PlacedBst(ls, rs, t, key);
    hide Placed, Bst, Whole;
    top := RotateRight(current, t);
  }

  method RotateLeftLinked(dummy: Node, left: Node, right: Node, current: Node, ghost ls: Spine, ghost rs: Spine, ghost t: Tree, ghost key: real,
                           ghost all: set<Node>)
    returns (top: Node)
    requires SpineNodes(ls) + SpineNodes(rs) + Nodes(t) == all
    requires Placed(ls, rs, t, key) && t.Branch? && t.right.Branch? && Linked(dummy, left, right, current, ls, rs, t)
    modifies Nodes(t)
    ensures Linked(dummy, left, right, top, ls, rs, RotatedLeft(t))
    ensures Placed(ls, rs, RotatedLeft(t), key) && Whole(ls, RotatedLeft(t), rs) == Whole(ls, t, rs)
    ensures Nodes(RotatedLeft(t)) == Nodes(t)
  {
    RotationKeeps(ls, rs, t, key);
    LinkReady(ls, rs, t, key);
    PlacedBst(ls, rs, t, key);
    hide Placed, Bst, Whole;
    top := RotateLeft(current, t);
  }

  lemma PlacedBst(ls: Spine, rs: Spine, t: Tree, key: real)
    requires Placed(ls, rs, t, key)
    ensures Bst(t)
  {
  }

  lemma StartsLinked(dummy: Node, current: Node, t: Tree)
    requires Shape(current, t) && dummy !in Nodes(t)
    ensures Linked(dummy, dummy, dummy, current, [], [], t)
    ensures SpineNodes([]) == {}
  {
  }

  /** What the loop reads from the heap. */
  lemma LinkedReads(dummy: Node, left: Node, right: Node, current: Node?, ls: Spine, rs: Spine, t: Tree, key: real)
    requires Placed(ls, rs, t, key) && t.Branch? && Linked(dummy, left, right, current, ls, rs, t)
    ensures current != null && current == t.node && (current.left == null <==> t.left.Leaf?) && (current.right == null <==> t.right.Leaf?)
    ensures t.left.Branch? ==> current.left == t.left.node
    ensures t.right.Branch? ==> current.right == t.right.node
    ensures left == LastOr(ls, dummy) && right == LastOr(rs, dummy)
    ensures left in {dummy} + SpineNodes(ls) && right in {dummy} + SpineNodes(rs) && current in Nodes(t)
    ensures Nodes(t) == Nodes(t.left) + {t.node} + Nodes(t.right)
    ensures t.node !in Nodes(t.left) + Nodes(t.right)
    ensures current != left && current != right
  {
    PartsDisjoint(ls, rs, t, key);
    assert Shape(current.left, t.left) && Shape(current.right, t.right);
  }

  /** The loop invariant of a splay. */
  ghost predicate State(dummy: Node, left: Node, right: Node, current: Node?, ls: Spine, rs: Spine, t: Tree, key: real,
                        all: set<Node>, order: seq<Node>)
    reads {dummy} + SpineNodes(ls) + SpineNodes(rs) + Nodes(t)
  {
    && Placed(ls, rs, t, key) && t.Branch?
    && Linked(dummy, left, right, current, ls, rs, t)
    && Whole(ls, t, rs) == order
    && SpineNodes(ls) + SpineNodes(rs) + Nodes(t) == all
  }

  /** The link of the first branch, seen from the whole state. */
  method LinkStepRight(dummy: Node, left: Node, right: Node, current: Node, key: real,
                       ghost ls: Spine, ghost rs: Spine, ghost t: Tree, ghost all: set<Node>, ghost order: seq<Node>)
    requires State(dummy, left, right, current, ls, rs, t, key, all, order) && key < t.node.key && t.left.Branch?
    modifies right
    ensures State(dummy, left, current, current.left, ls, rs + [(t.node, t.right)], t.left, key, all, order)
    ensures Nodes(t.left) < Nodes(t)
  {
    LinkedReads(dummy, left, right, current, ls, rs, t, key);
    PlacedLinkRight(ls, rs, t, key);
    OrderLinkRight(ls, rs, t);
    SpineNodesSnoc(rs, (t.node, t.right));
    hide Placed, Whole, SpineNodes, Linked, Bst, Nodes, Order, Shape;
    LinkRight(dummy, left, right, current, ls, rs, t, key);
  }

  method LinkStepLeft(dummy: Node, left: Node, right: Node, current: Node, key: real,
                      ghost ls: Spine, ghost rs: Spine, ghost t: Tree, ghost all: set<Node>, ghost order: seq<Node>)
    requires State(dummy, left, right, current, ls, rs, t, key, all, order) && t.node.key < key && t.right.Branch?
    modifies left
    ensures State(dummy, current, right, current.right, ls + [(t.node, t.left)], rs, t.right, key, all, order)
    ensures Nodes(t.right) < Nodes(t)
  {
    LinkedReads(dummy, left, right, current, ls, rs, t, key);
    PlacedLinkLeft(ls, rs, t, key);
    OrderLinkLeft(ls, rs, t);
    SpineNodesSnoc(ls, (t.node, t.left));
    hide Placed, Whole, SpineNodes, Linked, Bst, Nodes, Order, Shape;
    LinkLeft(dummy, left, right, current, ls, rs, t, key);
  }

  /** The first branch of the loop body, for a key left of the current node; `done` is its break. */
  method GoLeft(dummy: Node, left: Node, right0: Node, current0: Node, key: real,
                ghost ls: Spine, ghost rs0: Spine, ghost t0: Tree, ghost all: set<Node>, ghost order: seq<Node>)
    returns (done: bool, right: Node, current: Node, ghost rs: Spine, ghost t: Tree)
    requires State(dummy, left, right0, current0, ls, rs0, t0, key, all, order) && key < current0.key
    modifies dummy, all
    ensures State(dummy, left, right, current, ls, rs, t, key, all, order)
    ensures if done then key < t.node.key && t.left.Leaf? && Nodes(t) == Nodes(t0) else Nodes(t) < Nodes(t0)
    ensures Splayed(ls, t0, rs0, key) == if done then Assembled(ls, t, rs) else Splayed(ls, t, rs, key)
  {
    right, current, rs, t := right0, current0, rs0, t0;
    LinkedReads(dummy, left, right, current, ls, rs, t, key);
    SplayedLeft(ls, t, rs, key);
    hide Placed, Whole, SpineNodes, Linked, Bst, Nodes, Order, Shape, Splayed, Assembled;
    if current.left == null {
      return true, right, current, rs, t;
    }
    if key < current.left.key {
      current := RotateRightLinked(dummy, left, right, current, ls, rs, t, key, all);
      t := RotatedRight(t);
      LinkedReads(dummy, left, right, current, ls, rs, t, key);
      if current.left == null {
        return true, right, current, rs, t;
      }
    }
    LinkStepRight(dummy, left, right, current, key, ls, rs, t, all, order);
    right := current;
    current := current.left;
    rs, t := rs + [(t.node, t.right)], t.left;
    LinkedReads(dummy, left, right, current, ls, rs, t, key);
    done := false;
  }

  /** The second branch, for a key right of the current node. */
  method GoRight(dummy: Node, left0: Node, right: Node, current0: Node, key: real,
                 ghost ls0: Spine, ghost rs: Spine, ghost t0: Tree, ghost all: set<Node>, ghost order: seq<Node>)
    returns (done: bool, left: Node, current: Node, ghost ls: Spine, ghost t: Tree)
    requires State(dummy, left0, right, current0, ls0, rs, t0, key, all, order) && key > current0.key
    modifies dummy, all
    ensures State(dummy, left, right, current, ls, rs, t, key, all, order)
    ensures if done then t.node.key < key && t.right.Leaf? && Nodes(t) == Nodes(t0) else Nodes(t) < Nodes(t0)
    ensures Splayed(ls0, t0, rs, key) == if done then Assembled(ls, t, rs) else Splayed(ls, t, rs, key)
  {
    left, current, ls, t := left0, current0, ls0, t0;
    LinkedReads(dummy, left, right, current, ls, rs, t, key);
    SplayedRight(ls, t, rs, key);
    hide Placed, Whole, SpineNodes, Linked, Bst, Nodes, Order, Shape, Splayed, Assembled;
    if current.right == null {
      return true, left, current, ls, t;
    }
    if key > current.right.key {
      current := RotateLeftLinked(dummy, left, right, current, ls, rs, t, key, all);
      t := RotatedLeft(t);
      LinkedReads(dummy, left, right, current, ls, rs, t, key);
      if current.right == null {
        return true, left, current, ls, t;
      }
    }
    LinkStepLeft(dummy, left, right, current, key, ls, rs, t, all, order);
    left := current;
    current := current.right;
    ls, t := ls + [(t.node, t.left)], t.right;
    LinkedReads(dummy, left, right, current, ls, rs, t, key);
    done := false;
  }

  lemma SplayedStops(ls: Spine, t: Tree, rs: Spine, key: real)
    requires t.Branch? && t.node.key == key
    ensures Splayed(ls, t, rs, key) == Assembled(ls, t, rs)
  {
  }

  lemma ShapeBranch(n: Node, t: Tree)
    requires Shape(n, t)
    ensures t.Branch?
  {
  }

  /** What the branches of the loop body do to the tree that comes out. */
  lemma SplayedLeft(ls: Spine, t: Tree, rs: Spine, key: real)
    requires t.Branch? && key < t.node.key
    ensures t.left.Leaf? ==> Splayed(ls, t, rs, key) == Assembled(ls, t, rs)
    ensures t.left.Branch? && t.left.node.key <= key ==> Splayed(ls, t, rs, key) == Splayed(ls, t.left, rs + [(t.node, t.right)], key)
    ensures t.left.Branch? && key < t.left.node.key ==>
              var u := RotatedRight(t);
              Splayed(ls, t, rs, key) ==
              if u.left.Leaf? then Assembled(ls, u, rs) else Splayed(ls, u.left, rs + [(u.node, u.right)], key)
  {
    hide Assembled;
  }

  lemma SplayedRight(ls: Spine, t: Tree, rs: Spine, key: real)
    requires t.Branch? && t.node.key < key
    ensures t.right.Leaf? ==> Splayed(ls, t, rs, key) == Assembled(ls, t, rs)
    ensures t.right.Branch? && key <= t.right.node.key ==> Splayed(ls, t, rs, key) == Splayed(ls + [(t.node, t.left)], t.right, rs, key)
    ensures t.right.Branch? && t.right.node.key < key ==>
              var u := RotatedLeft(t);
              Splayed(ls, t, rs, key) ==
              if u.right.Leaf? then Assembled(ls, u, rs) else Splayed(ls + [(u.node, u.left)], u.right, rs, key)
  {
    hide Assembled;
  }

  lemma StartsPlaced(t: Tree, key: real)
    requires Bst(t)
    ensures Placed([], [], t, key) && Whole([], t, []) == Order(t)
  {
  }

  /** Trees with the same order have the same nodes and are search trees together. */
  lemma SameOrder(t: Tree, u: Tree)
    requires Order(t) == Order(u)
    ensures Nodes(t) == Nodes(u) && (Bst(t) <==> Bst(u))
  {
    OrderNodes(t);
    OrderNodes(u);
    BstAscending(t);
    BstAscending(u);
  }

  /** The splay proper, on the nodes of a search tree that is not empty. */
  method SplayNodes(start: Node, key: real, ghost t0: Tree, ghost all: set<Node>) returns (top: Node, ghost result: Tree)
    requires Shape(start, t0) && Bst(t0) && Nodes(t0) == all
    modifies all
    ensures Shape(top, result) && Bst(result) && Nodes(result) == all
    ensures Order(result) == Order(t0) && result.Branch? && AtRoot(result, key)
    ensures t0.Branch? && result == Splayed([], t0, [], key)
  {
    var dummy := new Node(0.0, 0);
    var left, right := dummy, dummy;
    var current := start;
    ghost var ls: Spine, rs: Spine, t := [], [], t0;
    StartsPlaced(t, key);
    StartsLinked(dummy, current, t);
    ShapeBranch(start, t0);
    hide Placed, Whole, SpineNodes, LeftTree, RightTree, AtRoot, Linked, Bst, Nodes, Order, Shape, Splayed, Assembled;
    var done := false;
    while !done
      modifies dummy, all
      invariant fresh(dummy)
      invariant State(dummy, left, right, current, ls, rs, t, key, all, Order(t0))
      invariant t0.Branch? && Splayed([], t0, [], key) == if done then Assembled(ls, t, rs) else Splayed(ls, t, rs, key)
      invariant done ==> t.node.key == key || (key < t.node.key && t.left.Leaf?) || (t.node.key < key && t.right.Leaf?)
      decreases Nodes(t), !done
    {
      LinkedReads(dummy, left, right, current, ls, rs, t, key);
      if key < current.key {
        done, right, current, rs, t := GoLeft(dummy, left, right, current, key, ls, rs, t, all, Order(t0));
      } else if key > current.key {
        done, left, current, ls, t := GoRight(dummy, left, right, current, key, ls, rs, t, all, Order(t0));
      } else {
        done := true;
        SplayedStops(ls, t, rs, key);
      }
    }
    LinkedReads(dummy, left, right, current, ls, rs, t, key);
    StopsAtRoot(ls, t, rs, key);
    AssembledOrder(ls, t, rs);
    Assemble(dummy, left, right, current, ls, rs, t, key);
    top, result := current, Assembled(ls, t, rs);
    SameOrder(result, t0);
  }

  // ----- what the root says about the map -----

  /** After a splay the root decides whether the key is in the map. */
  lemma RootFound(t: Tree, key: real)
    requires Bst(t) && t.Branch? && AtRoot(t, key)
    ensures key in Contents(Order(t)) <==> t.node.key == key
    ensures t.node.key == key ==> Contents(Order(t))[key] == t.node.value
  {
    BstAscending(t);
    OrderNodes(t);
    assert Order(t)[|Order(t.left)|] == t.node;
    ContentsHas(Order(t), |Order(t.left)|);
    if key in Contents(Order(t)) {
      var i := ContentsOnly(Order(t), key);
      assert Order(t)[i] in ToSet(Order(t));
    }
  }

  /** The position of a node of a + b in a + [n] + b. */
  function Skip(a: seq<Node>, i: int): int {
    if i < |a| then i else i + 1
  }

  lemma AscendingSkip(a: seq<Node>, n: Node, b: seq<Node>)
    requires Ascending(a + [n] + b)
    ensures Ascending(a + b)
    ensures forall i :: 0 <= i < |a + b| ==> (a + b)[i] == (a + [n] + b)[Skip(a, i)] && (a + b)[i].key != n.key
  {
    var s, u := a + [n] + b, a + b;
    assert s[|a|] == n;
    assert forall i :: 0 <= i < |u| ==> u[i] == s[Skip(a, i)];
  }

  /** One more node in order is one more entry in the map. */
  lemma ContentsSplit(a: seq<Node>, n: Node, b: seq<Node>)
    requires Ascending(a + [n] + b)
    ensures Ascending(a + b) && n.key !in Contents(a + b)
    ensures Contents(a + [n] + b) == Contents(a + b)[n.key := n.value]
  {
    hide Contents, Ascending;
    var s, u := a + [n] + b, a + b;
    AscendingSkip(a, n, b);
    if n.key in Contents(u) {
      var i := ContentsOnly(u, n.key);
    }
    var m := Contents(u)[n.key := n.value];
    forall i | 0 <= i < |s| ensures s[i].key in m && m[s[i].key] == s[i].value {
      if i != |a| {
        var j := if i < |a| then i else i - 1;
        ContentsHas(u, j);
        assert Skip(a, j) == i && s[i] == u[j];
      } else {
        assert s[i] == n;
      }
    }
    forall k | k in m ensures exists i :: 0 <= i < |s| && s[i].key == k {
      if k == n.key {
        assert s[|a|].key == k;
      } else {
        var i := ContentsOnly(u, k);
        assert s[Skip(a, i)].key == k;
      }
    }
    ContentsOf(s, m);
  }

  /** The split of a search tree at its root, as maps. */
  lemma RootSplit(t: Tree)
    requires Bst(t) && t.Branch?
    ensures Order(t) == Order(t.left) + [t.node] + Order(t.right)
    ensures t.node.key !in Contents(Order(t.left) + Order(t.right))
    ensures Contents(Order(t)) == Contents(Order(t.left) + Order(t.right))[t.node.key := t.node.value]
  {
    BstAscending(t);
    ContentsSplit(Order(t.left), t.node, Order(t.right));
  }

  /** The tree that `insert` builds on a splayed tree: the old root moves below the new node. */
  function Inserted(t: Tree, node: Node): Tree
    requires t.Branch?
  {
    if node.key > t.node.key then Branch(Branch(t.left, t.node, Leaf), node, t.right)
    else Branch(t.left, node, Branch(Leaf, t.node, t.right))
  }

  lemma InsertedIsSearchTree(t: Tree, node: Node)
    requires Bst(t) && t.Branch? && AtRoot(t, node.key) && t.node.key != node.key
    ensures Bst(Inserted(t, node)) && Nodes(Inserted(t, node)) == Nodes(t) + {node}
  {
    if node.key > t.node.key {
      assert Bst(Branch(t.left, t.node, Leaf));
      assert forall x :: x in Nodes(t.left) ==> x.key < t.node.key;
    } else {
      assert Bst(Branch(Leaf, t.node, t.right));
      assert forall x :: x in Nodes(t.right) ==> t.node.key < x.key;
    }
  }

  lemma InsertedMap(t: Tree, node: Node)
    requires t.Branch? && Bst(Inserted(t, node))
    ensures Contents(Order(Inserted(t, node))) == Contents(Order(t))[node.key := node.value]
  {
    var u := Inserted(t, node);
    assert Order(u.left) + Order(u.right) == Order(t);
    hide Bst, Contents, Order;
    RootSplit(u);
  }

  lemma NullIsLeaf(n: Node?, t: Tree)
    requires Shape(n, t)
    ensures n == null <==> t.Leaf?
  {
  }

  lemma RootIsNode(t: Tree)
    ensures t.Branch? ==> t.node in Nodes(t)
  {
  }

  /** All nodes of a tree below the key: a splay leaves the right link of the root open. */
  lemma MaximumAtRoot(t: Tree, key: real)
    requires Bst(t) && t.Branch? && AtRoot(t, key) && Below(t, key)
    ensures t.right.Leaf?
  {
    RootIsNode(t.right);
  }

  /** The two subtrees of a removed root, the left one splayed, joined. */
  lemma JoinedIsSearchTree(t: Tree, l: Tree)
    requires Bst(t) && t.Branch? && Bst(l) && l.Branch? && l.right.Leaf? && Order(l) == Order(t.left)
    ensures Bst(Branch(l.left, l.node, t.right)) && Nodes(Branch(l.left, l.node, t.right)) == Nodes(t.left) + Nodes(t.right)
    ensures Order(Branch(l.left, l.node, t.right)) == Order(t.left) + Order(t.right)
  {
    SameOrder(l, t.left);
    assert l.node in Nodes(t.left) && l.node.key < t.node.key;
    forall x | x in Nodes(t.right) ensures l.node.key < x.key {
    }
    assert Order(l) == Order(l.left) + [l.node];
  }

  /** Without the root, the map has lost exactly the root's key. */
  lemma RemovedMap(t: Tree, m: map<real, Value>)
    requires Bst(t) && t.Branch? && m == Contents(Order(t.left) + Order(t.right))
    ensures m == Contents(Order(t)) - {t.node.key}
  {
    RootSplit(t);
    hide *;
    LessOne(m, t.node.key, t.node.value);
  }

  lemma LessOne(m: map<real, Value>, k: real, v: Value)
    requires k !in m
    ensures m == m[k := v] - {k}
  {
  }

  function KeysOf(s: seq<Node>): (r: seq<real>)
    ensures |r| == |s| && forall i :: 0 <= i < |s| ==> r[i] == s[i].key
  {
    seq(|s|, i requires 0 <= i < |s| => s[i].key)
  }

  lemma KeysOfConcat(a: seq<Node>, b: seq<Node>)
    ensures KeysOf(a + b) == KeysOf(a) + KeysOf(b)
  {
  }

  lemma KeysOfBranch(t: Tree, before: seq<real>)
    requires t.Branch?
    ensures before + KeysOf(Order(t)) == before + KeysOf(Order(t.left)) + [t.node.key] + KeysOf(Order(t.right))
    ensures KeysOf(Order(Leaf)) == []
  {
    var a, b := Order(t.left), Order(t.right);
    assert Order(t) == a + [t.node] + b && KeysOf([t.node]) == [t.node.key] && KeysOf(Order(Leaf)) == [];
    hide KeysOf, Order;
    KeysOfConcat(a, [t.node]);
    KeysOfConcat(a + [t.node], b);
    assert before + (KeysOf(a) + [t.node.key] + KeysOf(b)) == before + KeysOf(a) + [t.node.key] + KeysOf(b);
  }

  ghost predicate StrictlyAscending(s: seq<real>) {
    forall i, j :: 0 <= i < j < |s| ==> s[i] < s[j]
  }

  /** The exported keys are sorted, without repetition, and exactly the keys of the map. */
  lemma KeysAreMapKeys(t: Tree)
    requires Bst(t)
    ensures StrictlyAscending(KeysOf(Order(t)))
    ensures forall k :: k in KeysOf(Order(t)) <==> k in Contents(Order(t))
    ensures |Contents(Order(t))| == |KeysOf(Order(t))|
  {
    BstAscending(t);
    var s := Order(t);
    forall k ensures k in KeysOf(s) <==> k in Contents(s) {
      if k in KeysOf(s) {
        var i :| 0 <= i < |s| && KeysOf(s)[i] == k;
        ContentsHas(s, i);
      }
      if k in Contents(s) {
        var i := ContentsOnly(s, k);
        assert KeysOf(s)[i] == k;
      }
    }
    ContentsCount(s);
  }

  lemma {:induction false} ContentsCount(s: seq<Node>)
    requires Ascending(s)
    ensures |Contents(s)| == |s|
  {
    if s != [] {
      var n := |s| - 1;
      ContentsCount(s[..n]);
      if s[n].key in Contents(s[..n]) {
        var i := ContentsOnly(s[..n], s[n].key);
      }
    }
  }

  /** The rightmost node has the greatest key. */
  lemma LastIsGreatest(t: Tree)
    requires Bst(t) && t.Branch?
    ensures Order(t) != [] && Order(t)[|Order(t)| - 1] in Nodes(t)
    ensures forall x :: x in Nodes(t) ==> x.key <= Order(t)[|Order(t)| - 1].key
  {
    BstAscending(t);
    OrderNodes(t);
    var s := Order(t);
    assert s[|s| - 1] in ToSet(s);
    forall x | x in Nodes(t) ensures x.key <= s[|s| - 1].key {
      var i :| 0 <= i < |s| && s[i] == x;
    }
  }

  /** Nodes and map entries are the same thing. */
  lemma MapNodes(t: Tree)
    requires Bst(t)
    ensures forall x :: x in Nodes(t) ==> x.key in Contents(Order(t)) && Contents(Order(t))[x.key] == x.value
    ensures forall k :: k in Contents(Order(t)) ==> exists x :: x in Nodes(t) && x.key == k
  {
    BstAscending(t);
    OrderNodes(t);
    var s := Order(t);
    forall x | x in Nodes(t) ensures x.key in Contents(s) && Contents(s)[x.key] == x.value {
      var i :| 0 <= i < |s| && s[i] == x;
      ContentsHas(s, i);
    }
    forall k | k in Contents(s) ensures exists x :: x in Nodes(t) && x.key == k {
      var i := ContentsOnly(s, k);
      assert s[i] in ToSet(s);
    }
  }

  /** The root is in neither subtree, and the subtrees share no node. */
  lemma RootApart(t: Tree)
    requires Bst(t) && t.Branch?
    ensures t.node !in Nodes(t.left) && t.node !in Nodes(t.right) && Nodes(t.left) !! Nodes(t.right)
  {
  }

  /** In-order visit of the subtree; the visitor appends the key. */
  method Traverse(start: Node, ghost t: Tree, ghost all: set<Node>, before: seq<real>) returns (result: seq<real>)
    requires Shape(start, t) && Nodes(t) <= all
    ensures result == before + KeysOf(Order(t))
    decreases t
  {
    result := before;
    var current: Node? := start;
    ghost var u := t;
    while current != null
      invariant Shape(current, u) && Nodes(u) <= all && (u == t || u < t)
      invariant result + KeysOf(Order(u)) == before + KeysOf(Order(t))
      decreases u
    {
      KeysOfBranch(u, result);
      hide KeysOf, Order;
      var left := current.left;
      if left != null {
        result := Traverse(left, u.left, all, result);
      }
      result := result + [current.key];
      current := current.right;
      u := u.right;
    }
  }

  /** The link writes of an insertion. */
  method Hang(node: Node, root: Node, ghost t: Tree)
    requires Shape(root, t) && node !in Nodes(t) && Bst(t) && root.key != node.key
    modifies node, root
    ensures Shape(node, Inserted(t, node))
  {
    RootApart(t);
    hide Bst;
    if node.key > root.key {
      node.left := root;
      node.right := root.right;
      root.right := null;
      assert Shape(root, Branch(t.left, t.node, Leaf)) && Shape(node.right, t.right);
    } else {
      node.right := root;
      node.left := root.left;
      root.left := null;
      assert Shape(root, Branch(Leaf, t.node, t.right)) && Shape(node.left, t.left);
    }
  }

  /** The last write of a removal. */
  method AttachRight(root: Node, right: Node?, ghost l: Tree, ghost r: Tree)
    requires Shape(root, l) && Shape(right, r) && root !in Nodes(l.left) && root !in Nodes(r)
    modifies root`right
    ensures Shape(root, Branch(l.left, l.node, r))
  {
    root.right := right;
  }

  class SplayTree {
    var root: Node?
    ghost var tree: Tree
    ghost var nodes: set<Node>

    ghost predicate Valid()
      reads this, nodes
    {
      nodes == Nodes(tree) && Shape(root, tree) && Bst(tree)
    }

    /** The finite map the tree stands for. */
    ghost function Map(): map<real, Value>
      reads this
    {
      Contents(Order(tree))
    }

    constructor ()
      ensures Valid() && Map() == map[] && tree == Leaf
    {
      root := null;
      tree := Leaf;
      nodes := {};
    }

    predicate IsEmpty()
      reads this
    {
      root == null
    }

    /** Moves the last node on the search path for the key to the root. */
    method Splay(key: real)
      requires Valid()
      modifies this, nodes
      ensures Valid() && Order(tree) == old(Order(tree)) && nodes == old(nodes)
      ensures tree.Branch? <==> old(tree).Branch?
      ensures tree.Branch? ==> AtRoot(tree, key) && tree == Splayed([], old(tree), [], key)
    {
      if IsEmpty() {
        return;
      }
      root, tree := SplayNodes(root, key, tree, nodes);
    }

    /** A new key becomes the root; a key already there changes nothing, not even its value. */
    method Insert(key: real, value: Value)
      requires Valid()
      modifies this, nodes
      ensures Valid() && fresh(nodes - old(nodes))
      ensures Map() == if key in old(Map()) then old(Map()) else old(Map())[key := value]
      ensures root != null && root.key == key
    {
      if IsEmpty() {
        root := new Node(key, value);
        tree, nodes := Branch(Leaf, root, Leaf), {root};
        return;
      }
      Splay(key);
      RootFound(tree, key);
      if root.key == key {
        return;
      }
      InsertBelow(key, value);
    }

    /** The second half of an insertion: the new node takes the place of the root. */
    method InsertBelow(key: real, value: Value)
      requires Valid() && root != null && AtRoot(tree, key) && root.key != key
      modifies this, nodes
      ensures Valid() && fresh(nodes - old(nodes))
      ensures Map() == old(Map())[key := value]
      ensures root != null && root.key == key
    {
      var node := new Node(key, value);
      hide Bst, Contents, Order, AtRoot;
      InsertedIsSearchTree(tree, node);
      InsertedMap(tree, node);
      Hang(node, root, tree);
      root := node;
      tree, nodes := Inserted(tree, node), nodes + {node};
    }

    /** Takes the key out of the map and returns its node; a key that is not there is an error. */
    method Remove(key: real) returns (r: Result<Node, real>)
      requires Valid()
      modifies this, nodes
      ensures Valid()
      ensures key !in old(Map()) ==> r == Err(key) && Map() == old(Map()) && nodes == old(nodes)
      ensures key in old(Map()) ==> r.Ok? && r.value.key == key && r.value.value == old(Map())[key]
      ensures key in old(Map()) ==> Map() == old(Map()) - {key} && nodes == old(nodes) - {r.value}
    {
      if IsEmpty() {
        return Err(key);
      }
      Splay(key);
      RootFound(tree, key);
      if root.key != key {
        return Err(key);
      }
      var removed := root;
      RemovedMap(tree, Contents(Order(tree.left) + Order(tree.right)));
      if root.left == null {
        RemoveSmallest();
      } else {
        RemoveAndJoin(key);
      }
      r := Ok(removed);
    }

    /** The root has no left subtree: its right subtree is left. */
    method RemoveSmallest()
      requires Valid() && root != null && root.left == null
      modifies this
      ensures Valid() && nodes == old(nodes) - {old(root)}
      ensures Map() == Contents(Order(old(tree).left) + Order(old(tree).right))
    {
      RootApart(tree);
      NullIsLeaf(root.left, tree.left);
      ShapeParts(root, tree);
      assert Order(tree.left) + Order(tree.right) == Order(tree.right);
      assert Bst(tree.right) && Nodes(tree.right) == Nodes(tree) - {tree.node};
      hide Bst, Order, Contents, Nodes, Shape;
      root := root.right;
      tree, nodes := tree.right, Nodes(tree.right);
    }

    /** The left subtree, splayed so that its root has no right child, takes the right subtree. */
    method RemoveAndJoin(key: real)
      requires Valid() && root != null && root.left != null && root.key == key
      modifies this, nodes
      ensures Valid() && nodes == old(nodes) - {old(root)}
      ensures Map() == Contents(Order(old(tree).left) + Order(old(tree).right))
    {
      ghost var t, all := tree, nodes;
      RootApart(t);
      NullIsLeaf(root.left, t.left);
      var right := root.right;
      assert Shape(right, t.right) && Nodes(t.right) <= all && Below(t.left, key) && Bst(t.left);
      root := root.left;
      tree, nodes := t.left, Nodes(t.left);
      hide Contents, Order, Bst, AtRoot;
      Splay(key);
      SameOrder(tree, t.left);
      MaximumAtRoot(tree, key);
      JoinedIsSearchTree(t, tree);
      RootApart(tree);
      hide Shape, Nodes;
      AttachRight(root, right, tree, t.right);
      tree, nodes := Branch(tree.left, tree.node, t.right), Nodes(t.left) + Nodes(t.right);
    }

    /** The node with the key, if the map has the key. */
    method Find(key: real) returns (r: Node?)
      requires Valid()
      modifies this, nodes
      ensures Valid() && Map() == old(Map()) && nodes == old(nodes)
      ensures r != null <==> key in Map()
      ensures r != null ==> r in nodes && r == root && r.key == key && r.value == Map()[key]
      ensures tree == if old(tree).Leaf? then Leaf else Splayed([], old(tree), [], key)
    {
      if IsEmpty() {
        return null;
      }
      Splay(key);
      RootFound(tree, key);
      r := if root.key == key then root else null;
    }

    /** The rightmost node of the start node's subtree, or of the whole tree. */
    method FindMax(start: Node?, ghost below: Tree) returns (r: Node?)
      requires Valid()
      requires if start == null then below == tree else Shape(start, below)
      ensures r == null <==> tree == Leaf
      ensures r != null ==> Order(below) != [] && r == Order(below)[|Order(below)| - 1]
    {
      if IsEmpty() {
        return null;
      }
      var current := if start != null then start else root;
      ghost var t := below;
      while current.right != null
        invariant Shape(current, t)
        invariant Order(t) != [] && Order(below) != []
        invariant Order(t)[|Order(t)| - 1] == Order(below)[|Order(below)| - 1]
        decreases t
      {
        current := current.right;
        t := t.right;
      }
      r := current;
    }

    /** The greatest key of the map below the given key. */
    method FindGreatestLessThan(key: real) returns (r: Node?)
      requires Valid()
      modifies this, nodes
      ensures Valid() && Map() == old(Map()) && nodes == old(nodes)
      ensures r == null ==> forall k :: k in Map() ==> key <= k
      ensures r != null ==> r in nodes && r.key < key && r.key in Map() && r.value == Map()[r.key]
      ensures r != null ==> forall k :: k in Map() && k < key ==> k <= r.key
    {
      if IsEmpty() {
        return null;
      }
      Splay(key);
      MapNodes(tree);
      if root.key < key {
        r := root;
      } else if root.left != null {
        r := FindMax(root.left, tree.left);
        LastIsGreatest(tree.left);
      } else {
        r := null;
        NullIsLeaf(root.left, tree.left);
        assert Nodes(tree) == {tree.node} + Nodes(tree.right);
        assert forall x :: x in Nodes(tree) ==> key <= x.key;
      }
    }

    /** All keys, in ascending order. */
    method ExportKeys() returns (result: seq<real>)
      requires Valid()
      ensures StrictlyAscending(result) && (forall k :: k in result <==> k in Map()) && |result| == |Map()|
    {
      KeysAreMapKeys(tree);
      result := [];
      if !IsEmpty() {
        result := Traverse(root, tree, nodes, []);
      }
    }
  }
}
