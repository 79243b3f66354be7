/**
  What splaying is for: the nodes on the search path come up to about half their depth,
  and no node goes down by more than two levels.  Without the rotations the first part
  fails.
*/
module SplayDepths {
  import opened SplayShapes
  import opened SplayTrees

  /** The node is this far below the root. */
  predicate At(t: Tree, x: Node, d: nat) {
    t.Branch? && if d == 0 then x == t.node else At(t.left, x, d - 1) || At(t.right, x, d - 1)
  }

  /** The node is this far down the search path for the key. */
  predicate OnPath(t: Tree, key: real, x: Node, d: nat) {
    t.Branch? &&
    if d == 0 then x == t.node
    else if key < t.node.key then OnPath(t.left, key, x, d - 1)
    else t.node.key < key && OnPath(t.right, key, x, d - 1)
  }

  lemma {:induction false} PathIsAt(t: Tree, key: real, x: Node, d: nat)
    requires OnPath(t, key, x, d)
    ensures At(t, x, d)
  {
    if d > 0 {
      PathIsAt(if key < t.node.key then t.left else t.right, key, x, d - 1);
    }
  }

  // ----- where the parts end up -----

  /** Entry i of a spine with its subtree hangs at depth i; what is below the spine hangs at its length. */
  lemma {:induction false} InLeftTree(ls: Spine, t: Tree, x: Node, k: nat)
    ensures At(t, x, k) ==> At(LeftTree(ls, t), x, |ls| + k)
    ensures forall i :: 0 <= i < |ls| && At(Branch(ls[i].1, ls[i].0, Leaf), x, k) ==> At(LeftTree(ls, t), x, i + k)
  {
    if ls != [] {
      InLeftTree(ls[1..], t, x, k);
      forall i | 0 <= i < |ls| && At(Branch(ls[i].1, ls[i].0, Leaf), x, k) ensures At(LeftTree(ls, t), x, i + k) {
        assert LeftTree(ls, t) == Branch(ls[0].1, ls[0].0, LeftTree(ls[1..], t));
        if i > 0 {
          assert ls[1..][i - 1] == ls[i] && At(LeftTree(ls[1..], t), x, i - 1 + k);
        } else if k > 0 {
          assert !At(Leaf, x, k - 1) && Branch(ls[0].1, ls[0].0, Leaf).right == Leaf;
          assert At(ls[0].1, x, k - 1);
        }
      }
    }
  }

  lemma {:induction false} InRightTree(rs: Spine, t: Tree, x: Node, k: nat)
    ensures At(t, x, k) ==> At(RightTree(rs, t), x, |rs| + k)
    ensures forall i :: 0 <= i < |rs| && At(Branch(Leaf, rs[i].0, rs[i].1), x, k) ==> At(RightTree(rs, t), x, i + k)
  {
    if rs != [] {
      InRightTree(rs[1..], t, x, k);
      forall i | 0 <= i < |rs| && At(Branch(Leaf, rs[i].0, rs[i].1), x, k) ensures At(RightTree(rs, t), x, i + k) {
        assert RightTree(rs, t) == Branch(RightTree(rs[1..], t), rs[0].0, rs[0].1);
        if i > 0 {
          assert rs[1..][i - 1] == rs[i] && At(RightTree(rs[1..], t), x, i - 1 + k);
        } else if k > 0 {
          assert !At(Leaf, x, k - 1) && Branch(Leaf, rs[0].0, rs[0].1).left == Leaf;
          assert At(rs[0].1, x, k - 1);
        }
      }
    }
  }

  lemma InAssembled(ls: Spine, t: Tree, rs: Spine, x: Node, k: nat)
    requires t.Branch?
    ensures At(Assembled(ls, t, rs), t.node, 0)
    ensures At(t.left, x, k) ==> At(Assembled(ls, t, rs), x, 1 + |ls| + k)
    ensures At(t.right, x, k) ==> At(Assembled(ls, t, rs), x, 1 + |rs| + k)
    ensures forall i :: 0 <= i < |ls| && At(Branch(ls[i].1, ls[i].0, Leaf), x, k) ==> At(Assembled(ls, t, rs), x, 1 + i + k)
    ensures forall i :: 0 <= i < |rs| && At(Branch(Leaf, rs[i].0, rs[i].1), x, k) ==> At(Assembled(ls, t, rs), x, 1 + i + k)
  {
    InLeftTree(ls, t.left, x, k);
    InRightTree(rs, t.right, x, k);
    hide LeftTree, RightTree;
  }

  /** What was linked stays where it was linked. */
  lemma {:induction false} LinkedStays(ls: Spine, t: Tree, rs: Spine, key: real, x: Node, k: nat)
    requires t.Branch?
    ensures forall i :: 0 <= i < |ls| && At(Branch(ls[i].1, ls[i].0, Leaf), x, k) ==> At(Splayed(ls, t, rs, key), x, 1 + i + k)
    ensures forall i :: 0 <= i < |rs| && At(Branch(Leaf, rs[i].0, rs[i].1), x, k) ==> At(Splayed(ls, t, rs, key), x, 1 + i + k)
    decreases t
  {
    hide *;
    if key < t.node.key {
      SplayedLeft(ls, t, rs, key);
      if t.left.Leaf? {
        InAssembled(ls, t, rs, x, k);
      } else if t.left.node.key <= key {
        LinkedStays(ls, t.left, rs + [(t.node, t.right)], key, x, k);
        Longer(rs, (t.node, t.right));
      } else {
        var u := RotatedRight(t);
        RotatedParts(t);
        if u.left.Leaf? {
          InAssembled(ls, u, rs, x, k);
        } else {
          LinkedStays(ls, u.left, rs + [(u.node, u.right)], key, x, k);
          Longer(rs, (u.node, u.right));
        }
      }
    } else if t.node.key < key {
      SplayedRight(ls, t, rs, key);
      if t.right.Leaf? {
        InAssembled(ls, t, rs, x, k);
      } else if key <= t.right.node.key {
        LinkedStays(ls + [(t.node, t.left)], t.right, rs, key, x, k);
        Longer(ls, (t.node, t.left));
      } else {
        var u := RotatedLeft(t);
        RotatedParts(t);
        if u.right.Leaf? {
          InAssembled(ls, u, rs, x, k);
        } else {
          LinkedStays(ls + [(u.node, u.left)], u.right, rs, key, x, k);
          Longer(ls, (u.node, u.left));
        }
      }
    } else {
      SplayedStops(ls, t, rs, key);
      InAssembled(ls, t, rs, x, k);
    }
  }

  lemma Longer(s: Spine, y: (Node, Tree))
    ensures |s + [y]| == |s| + 1 && (s + [y])[|s|] == y && forall i :: 0 <= i < |s| ==> (s + [y])[i] == s[i]
  {
  }

  lemma RotatedParts(t: Tree)
    requires t.Branch?
    ensures t.left.Branch? ==> RotatedRight(t) == Branch(t.left.left, t.left.node, Branch(t.left.right, t.node, t.right))
    ensures t.right.Branch? ==> RotatedLeft(t) == Branch(Branch(t.left, t.node, t.right.left), t.right.node, t.right.right)
  {
  }

  // ----- depths -----

  /** The current tree is c levels down, and neither spine has more than half as many entries. */
  ghost predicate Halved(ls: Spine, t: Tree, rs: Spine, key: real, c: nat) {
    && t.Branch? && 2 * |ls| <= c + 1 && 2 * |rs| <= c + 1
    && (key < t.node.key ==> 2 * |rs| <= c) && (t.node.key < key ==> 2 * |ls| <= c)
  }

  /** A node of the current tree: how deep it comes to lie. */
  lemma {:induction false} Depths(ls: Spine, t: Tree, rs: Spine, key: real, c: nat, x: Node, d: nat) returns (e: nat)
    requires Halved(ls, t, rs, key, c) && At(t, x, d)
    ensures At(Splayed(ls, t, rs, key), x, e) && e <= c + d + 2
    ensures OnPath(t, key, x, d) ==> 2 * e <= c + d + 4
    decreases t, 2
  {
    if key < t.node.key {
      e := DepthsLeft(ls, t, rs, key, c, x, d);
    } else if t.node.key < key {
      e := DepthsRight(ls, t, rs, key, c, x, d);
    } else {
      SplayedStops(ls, t, rs, key);
      if d == 0 {
        InAssembled(ls, t, rs, x, 0);
        e := 0;
      } else {
        InAssembled(ls, t, rs, x, d - 1);
        e := if At(t.left, x, d - 1) then |ls| + d else |rs| + d;
      }
    }
    hide *;
  }

  /** A node that is linked to the right tree with its right subtree. */
  lemma LinkedRight(ls: Spine, t: Tree, rs: Spine, key: real, y: (Node, Tree), x: Node, k: nat)
    requires t.Branch? && At(Branch(Leaf, y.0, y.1), x, k)
    ensures At(Splayed(ls, t, rs + [y], key), x, 1 + |rs| + k)
  {
    hide *;
    LinkedStays(ls, t, rs + [y], key, x, k);
    Longer(rs, y);
  }

  lemma LinkedLeft(ls: Spine, t: Tree, rs: Spine, key: real, y: (Node, Tree), x: Node, k: nat)
    requires t.Branch? && At(Branch(y.1, y.0, Leaf), x, k)
    ensures At(Splayed(ls + [y], t, rs, key), x, 1 + |ls| + k)
  {
    hide *;
    LinkedStays(ls + [y], t, rs, key, x, k);
    Longer(ls, y);
  }

  lemma {:induction false} DepthsLeft(ls: Spine, t: Tree, rs: Spine, key: real, c: nat, x: Node, d: nat) returns (e: nat)
    requires Halved(ls, t, rs, key, c) && At(t, x, d) && key < t.node.key
    ensures At(Splayed(ls, t, rs, key), x, e) && e <= c + d + 2
    ensures OnPath(t, key, x, d) ==> 2 * e <= c + d + 4
    decreases t, 1
  {
    SplayedLeft(ls, t, rs, key);
    PathBelow(t, key, x, d);
    hide Splayed, Assembled;
    if t.left.Leaf? {
      InAssembled(ls, t, rs, x, if d == 0 then 0 else d - 1);
      e := if d == 0 then 0 else |rs| + d;
    } else if t.left.node.key <= key {
      if d > 0 && At(t.left, x, d - 1) {
        e := Depths(ls, t.left, rs + [(t.node, t.right)], key, c + 1, x, d - 1);
      } else {
        LinkedRight(ls, t.left, rs, key, (t.node, t.right), x, d);
        e := 1 + |rs| + d;
      }
    } else {
      e := DepthsRotatedLeft(ls, t, rs, key, c, x, d);
    }
  }

  lemma PathBelow(t: Tree, key: real, x: Node, d: nat)
    requires t.Branch?
    ensures OnPath(t, key, x, d) && d > 0 && key < t.node.key ==> OnPath(t.left, key, x, d - 1) && At(t.left, x, d - 1)
    ensures OnPath(t, key, x, d) && d > 0 && t.node.key < key ==> OnPath(t.right, key, x, d - 1) && At(t.right, x, d - 1)
  {
    if OnPath(t, key, x, d) && d > 0 {
      if key < t.node.key {
        PathIsAt(t.left, key, x, d - 1);
      } else {
        PathIsAt(t.right, key, x, d - 1);
      }
    }
  }

  lemma {:induction false} DepthsRotatedLeft(ls: Spine, t: Tree, rs: Spine, key: real, c: nat, x: Node, d: nat) returns (e: nat)
    requires Halved(ls, t, rs, key, c) && At(t, x, d) && t.left.Branch? && key < t.left.node.key && key < t.node.key
    ensures At(Splayed(ls, t, rs, key), x, e) && e <= c + d + 2
    ensures OnPath(t, key, x, d) ==> 2 * e <= c + d + 4
    decreases t, 0
  {
    SplayedLeft(ls, t, rs, key);
    hide Splayed, Assembled;
    var u := RotatedRight(t);
    PathBelow(t, key, x, d);
    if d > 0 {
      PathBelow(t.left, key, x, d - 1);
    }
    if d > 1 && At(t.left.left, x, d - 2) {
      e := Depths(ls, u.left, rs + [(u.node, u.right)], key, c + 2, x, d - 2);
    } else {
      var k := AfterRotation(t, x, d);
      if u.left.Branch? {
        LinkedRight(ls, u.left, rs, key, (u.node, u.right), x, k);
        e := 1 + |rs| + k;
      } else {
        InAssembled(ls, u, rs, x, if k == 0 then 0 else k - 1);
        e := if k == 0 then 0 else |rs| + k;
      }
    }
  }

  /** A node outside the outer subtree hangs below the new top, one level lower at most than it was. */
  lemma AfterRotation(t: Tree, x: Node, d: nat) returns (k: nat)
    requires t.Branch? && t.left.Branch? && At(t, x, d) && !(d > 1 && At(t.left.left, x, d - 2))
    ensures At(Branch(Leaf, t.left.node, Branch(t.left.right, t.node, t.right)), x, k) && k <= d + 1
    ensures d == 0 ==> k == 1
    ensures d == 1 && x == t.left.node ==> k == 0
    ensures k > 0 ==> At(Branch(t.left.right, t.node, t.right), x, k - 1)
    ensures k == 0 ==> x == t.left.node
  {
    if d == 0 {
      k := 1;
    } else if d == 1 && x == t.left.node {
      k := 0;
    } else if d > 1 && At(t.left.right, x, d - 2) {
      k := d;
      assert At(Branch(t.left.right, t.node, t.right), x, d - 1);
    } else {
      k := d + 1;
      assert At(t.right, x, d - 1);
      assert At(Branch(t.left.right, t.node, t.right), x, d);
    }
  }

  lemma {:induction false} DepthsRight(ls: Spine, t: Tree, rs: Spine, key: real, c: nat, x: Node, d: nat) returns (e: nat)
    requires Halved(ls, t, rs, key, c) && At(t, x, d) && t.node.key < key
    ensures At(Splayed(ls, t, rs, key), x, e) && e <= c + d + 2
    ensures OnPath(t, key, x, d) ==> 2 * e <= c + d + 4
    decreases t, 1
  {
    SplayedRight(ls, t, rs, key);
    PathBelow(t, key, x, d);
    hide Splayed, Assembled;
    if t.right.Leaf? {
      InAssembled(ls, t, rs, x, if d == 0 then 0 else d - 1);
      e := if d == 0 then 0 else |ls| + d;
    } else if key <= t.right.node.key {
      if d > 0 && At(t.right, x, d - 1) {
        e := Depths(ls + [(t.node, t.left)], t.right, rs, key, c + 1, x, d - 1);
      } else {
        LinkedLeft(ls, t.right, rs, key, (t.node, t.left), x, d);
        e := 1 + |ls| + d;
      }
    } else {
      e := DepthsRotatedRight(ls, t, rs, key, c, x, d);
    }
  }

  lemma {:induction false} DepthsRotatedRight(ls: Spine, t: Tree, rs: Spine, key: real, c: nat, x: Node, d: nat) returns (e: nat)
    requires Halved(ls, t, rs, key, c) && At(t, x, d) && t.right.Branch? && t.right.node.key < key && t.node.key < key
    ensures At(Splayed(ls, t, rs, key), x, e) && e <= c + d + 2
    ensures OnPath(t, key, x, d) ==> 2 * e <= c + d + 4
    decreases t, 0
  {
    SplayedRight(ls, t, rs, key);
    hide Splayed, Assembled;
    var u := RotatedLeft(t);
    PathBelow(t, key, x, d);
    if d > 0 {
      PathBelow(t.right, key, x, d - 1);
    }
    if d > 1 && At(t.right.right, x, d - 2) {
      e := Depths(ls + [(u.node, u.left)], u.right, rs, key, c + 2, x, d - 2);
    } else {
      var k := AfterLeftRotation(t, x, d);
      if u.right.Branch? {
        LinkedLeft(ls, u.right, rs, key, (u.node, u.left), x, k);
        e := 1 + |ls| + k;
      } else {
        InAssembled(ls, u, rs, x, if k == 0 then 0 else k - 1);
        e := if k == 0 then 0 else |ls| + k;
      }
    }
  }

  lemma AfterLeftRotation(t: Tree, x: Node, d: nat) returns (k: nat)
    requires t.Branch? && t.right.Branch? && At(t, x, d) && !(d > 1 && At(t.right.right, x, d - 2))
    ensures At(Branch(Branch(t.left, t.node, t.right.left), t.right.node, Leaf), x, k) && k <= d + 1
    ensures d == 0 ==> k == 1
    ensures d == 1 && x == t.right.node ==> k == 0
    ensures k > 0 ==> At(Branch(t.left, t.node, t.right.left), x, k - 1)
    ensures k == 0 ==> x == t.right.node
  {
    if d == 0 {
      k := 1;
    } else if d == 1 && x == t.right.node {
      k := 0;
    } else if d > 1 && At(t.right.left, x, d - 2) {
      k := d;
      assert At(Branch(t.left, t.node, t.right.left), x, d - 1);
    } else {
      k := d + 1;
      assert At(t.left, x, d - 1);
      assert At(Branch(t.left, t.node, t.right.left), x, d);
    }
  }

  /** A splay brings each node of the search path to about half its depth, and lowers no node by more than two levels. */
  lemma SplayHalvesPath(t: Tree, key: real, x: Node, d: nat)
    requires t.Branch? && At(t, x, d)
    ensures exists e: nat :: At(Splayed([], t, [], key), x, e) && e <= d + 2 && (OnPath(t, key, x, d) ==> 2 * e <= d + 4)
  {
    var e := Depths([], t, [], key, 0, x, d);
    hide Splayed;
  }
}
