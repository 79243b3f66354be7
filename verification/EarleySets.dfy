/**
  The sets of one parser state.  A set holds starting positions and is one vector:
  slot 0 links the agenda, slots 1 and 2 are tail and head of the list of members
  already dealt with, slots 3 and 4 those of the new members, and slot 5 + i is the
  link of member i, False when i is not a member.  A tail of an empty list is the
  number that makes slot 5 + tail the slot of the head.
*/
module EarleySets {
  import opened Wrappers

  datatype Cell = False | Num(n: int)

  datatype Lists = Lists(merged: seq<nat>, pending: seq<nat>)

  function First(s: seq<nat>): int {
    if s == [] then -1 else s[0]
  }

  function Tail(s: seq<nat>, empty: int): int {
    if s == [] then empty else s[|s| - 1]
  }

  function After(s: seq<nat>, t: int): int
    requires 0 <= t < |s|
  {
    if t + 1 < |s| then s[t + 1] else -1
  }

  /** Member t of s is linked to the next one. */
  ghost predicate Linked(cells: seq<Cell>, s: seq<nat>, t: int)
    requires 0 <= t < |s|
  {
    s[t] + 5 < |cells| && cells[s[t] + 5] == Num(After(s, t))
  }

  /** From slot p on, the links visit exactly the members of s, in order. */
  ghost predicate Chain(cells: seq<Cell>, p: nat, s: seq<nat>) {
    && p < |cells| && cells[p] == Num(First(s))
    && (forall t :: 0 <= t < |s| ==> Linked(cells, s, t))
  }

  ghost predicate SetOk(cells: seq<Cell>, num: nat, l: Lists) {
    && |cells| == num + 6
    && Chain(cells, 2, l.merged) && cells[1] == Num(Tail(l.merged, -3))
    && Chain(cells, 4, l.pending) && cells[3] == Num(Tail(l.pending, -1))
    && Distinct(l.merged + l.pending)
    && (forall i: nat :: i <= num ==> (cells[i + 5] == False <==> i !in l.merged && i !in l.pending))
  }

  lemma DistinctParts(a: seq<nat>, b: seq<nat>)
    requires Distinct(a + b)
    ensures Distinct(a) && Distinct(b) && forall i :: i in a ==> i !in b
  {
    var s := a + b;
    forall i, j | 0 <= i < j < |a| ensures a[i] != a[j] {
      assert s[i] == a[i] && s[j] == a[j];
    }
    forall i, j | 0 <= i < j < |b| ensures b[i] != b[j] {
      assert s[|a| + i] == b[i] && s[|a| + j] == b[j];
    }
    forall i | i in a ensures i !in b {
      var t :| 0 <= t < |a| && a[t] == i;
      forall u | 0 <= u < |b| ensures b[u] != i {
        assert s[t] == i && s[|a| + u] == b[u];
      }
    }
  }

  lemma DistinctSnoc(s: seq<nat>, i: nat)
    requires Distinct(s) && i !in s
    ensures Distinct(s + [i])
  {
  }

  lemma {:induction false} ChainAt(cells: seq<Cell>, p: nat, s: seq<nat>, t: int)
    requires Chain(cells, p, s) && 0 <= t < |s|
    ensures s[t] + 5 < |cells| && cells[s[t] + 5] == Num(After(s, t))
  {
    assert Linked(cells, s, t);
  }

  /** Members are distinct positions up to the state's own, so a walk along a chain ends. */
  lemma MembersBounded(cells: seq<Cell>, num: nat, l: Lists)
    requires SetOk(cells, num, l)
    ensures forall i :: i in l.merged || i in l.pending ==> i <= num
    ensures forall i :: i in l.merged ==> i !in l.pending
  {
    DistinctParts(l.merged, l.pending);
    forall i | i in l.merged ensures i <= num {
      var t :| 0 <= t < |l.merged| && l.merged[t] == i;
      ChainAt(cells, 2, l.merged, t);
    }
    forall i | i in l.pending ensures i <= num {
      var t :| 0 <= t < |l.pending| && l.pending[t] == i;
      ChainAt(cells, 4, l.pending, t);
    }
  }

  /** Writing one more slot keeps a chain it does not belong to. */
  lemma ChainKept(cells: seq<Cell>, p: nat, s: seq<nat>, k: nat, v: Cell)
    requires Chain(cells, p, s) && k < |cells| && k != p && (k >= 5 ==> k - 5 !in s)
    ensures Chain(cells[k := v], p, s)
  {
    var after := cells[k := v];
    forall t | 0 <= t < |s| ensures Linked(after, s, t) {
      ChainAt(cells, p, s, t);
      assert s[t] in s;
    }
  }

  lemma ChainSnoc(cells: seq<Cell>, p: nat, s: seq<nat>, i: nat)
    requires Chain(cells, p, s) && i !in s && i + 5 < |cells| && p < 5 && Distinct(s)
    requires s != [] ==> s[|s| - 1] + 5 < |cells|
    ensures var tail := if s == [] then p else s[|s| - 1] + 5;
            Chain(cells[i + 5 := Num(-1)][tail := Num(i)], p, s + [i])
  {
    var tail := if s == [] then p else s[|s| - 1] + 5;
    var after := cells[i + 5 := Num(-1)][tail := Num(i)];
    forall t | 0 <= t < |s + [i]| ensures Linked(after, s + [i], t) {
      if t < |s| {
        ChainAt(cells, p, s, t);
        assert s[t] in s && (t < |s| - 1 ==> s[t] != s[|s| - 1]);
      } else {
        assert s != [] ==> s[|s| - 1] in s;
      }
    }
  }

  lemma ChainJoin(cells: seq<Cell>, a: seq<nat>, b: seq<nat>)
    requires Chain(cells, 2, a) && Chain(cells, 4, b) && Distinct(a + b) && b != []
    requires a != [] ==> a[|a| - 1] + 5 < |cells|
    ensures Chain(cells[(if a == [] then 2 else a[|a| - 1] + 5) := cells[4]], 2, a + b)
  {
    DistinctParts(a, b);
    var tail := if a == [] then 2 else a[|a| - 1] + 5;
    var after := cells[tail := cells[4]];
    forall t | 0 <= t < |a + b| ensures Linked(after, a + b, t) {
      assert a != [] ==> a[|a| - 1] in a;
      if t < |a| {
        ChainAt(cells, 2, a, t);
        assert t < |a| - 1 ==> a[t] != a[|a| - 1];
      } else {
        ChainAt(cells, 4, b, t - |a|);
        assert b[t - |a|] in b;
      }
    }
  }

  lemma TailBounded(cells: seq<Cell>, p: nat, s: seq<nat>)
    requires Chain(cells, p, s)
    ensures s != [] ==> s[|s| - 1] in s && s[|s| - 1] + 5 < |cells|
  {
    if s != [] {
      ChainAt(cells, p, s, |s| - 1);
    }
  }

  lemma AdjoinOk(cells: seq<Cell>, num: nat, l: Lists, i: nat)
    requires SetOk(cells, num, l) && i <= num && cells[i + 5] == False
    ensures cells[3].Num? && 0 <= cells[3].n + 5 < |cells|
    ensures var tail := cells[3].n;
            SetOk(cells[i + 5 := Num(-1)][tail + 5 := Num(i)][3 := Num(i)], num, Lists(l.merged, l.pending + [i]))
  {
    MembersBounded(cells, num, l);
    DistinctParts(l.merged, l.pending);
    TailBounded(cells, 4, l.pending);
    var tail := cells[3].n;
    var c1 := cells[i + 5 := Num(-1)];
    var c2 := c1[tail + 5 := Num(i)];
    var c3 := c2[3 := Num(i)];
    ChainSnoc(cells, 4, l.pending, i);
    ChainKept(cells, 2, l.merged, i + 5, Num(-1));
    ChainKept(c1, 2, l.merged, tail + 5, Num(i));
    ChainKept(c2, 2, l.merged, 3, Num(i));
    ChainKept(c2, 4, l.pending + [i], 3, Num(i));
    DistinctSnoc(l.merged + l.pending, i);
    assert l.merged + (l.pending + [i]) == (l.merged + l.pending) + [i];
    hide Chain, Distinct;
    forall k: nat | k <= num ensures c3[k + 5] == False <==> k !in l.merged && k !in l.pending + [i] {
      assert k in l.pending + [i] <==> k in l.pending || k == i;
    }
  }

  lemma MergeOk(cells: seq<Cell>, num: nat, l: Lists)
    requires SetOk(cells, num, l) && l.pending != []
    ensures cells[1].Num? && 0 <= cells[1].n + 5 < |cells|
    ensures var tail := cells[1].n;
            SetOk(cells[tail + 5 := cells[4]][1 := cells[3]][3 := Num(-1)][4 := Num(-1)], num, Lists(l.merged + l.pending, []))
  {
    MembersBounded(cells, num, l);
    TailBounded(cells, 2, l.merged);
    var tail := cells[1].n;
    var c1 := cells[tail + 5 := cells[4]];
    var c2 := c1[1 := cells[3]];
    var c3 := c2[3 := Num(-1)];
    ChainJoin(cells, l.merged, l.pending);
    ChainKept(c1, 2, l.merged + l.pending, 1, cells[3]);
    ChainKept(c2, 2, l.merged + l.pending, 3, Num(-1));
    ChainKept(c3, 2, l.merged + l.pending, 4, Num(-1));
    ChainEmpty(c3[4 := Num(-1)], 4);
    assert (l.merged + l.pending) + [] == l.merged + l.pending;
    assert cells[4] == Num(First(l.pending));
    hide Chain, Distinct;
    forall k: nat | k <= num ensures c3[4 := Num(-1)][k + 5] == False <==> k !in l.merged + l.pending {
      assert k in l.merged + l.pending <==> k in l.merged || k in l.pending;
    }
  }

  lemma ChainEmpty(cells: seq<Cell>, p: nat)
    requires p < |cells| && cells[p] == Num(-1)
    ensures Chain(cells, p, [])
  {
  }

  // ----- the agenda -----

  ghost predicate Waiting(sets: map<nat, seq<Cell>>, queue: seq<nat>, t: int)
    requires 0 <= t < |queue|
  {
    queue[t] in sets && |sets[queue[t]]| > 0 && sets[queue[t]][0] == Num(After(queue, t))
  }

  /** The agenda is a chain, through the slots 0, of exactly the configurations with new members. */
  ghost predicate AgendaOk(agenda: int, sets: map<nat, seq<Cell>>, lists: map<nat, Lists>, queue: seq<nat>) {
    && agenda == First(queue) && Distinct(queue)
    && (forall t :: 0 <= t < |queue| ==> Waiting(sets, queue, t))
    && (forall c: nat :: c in queue <==> c in lists && lists[c].pending != [])
  }

  lemma AgendaKept(agenda: int, sets: map<nat, seq<Cell>>, lists: map<nat, Lists>, queue: seq<nat>, c: nat, cells: seq<Cell>, l: Lists)
    requires AgendaOk(agenda, sets, lists, queue) && |cells| > 0
    requires c in queue ==> c in sets && |sets[c]| > 0 && cells[0] == sets[c][0]
    requires l.pending != [] <==> c in queue
    ensures AgendaOk(agenda, sets[c := cells], lists[c := l], queue)
  {
    var after := sets[c := cells];
    forall t | 0 <= t < |queue| ensures Waiting(after, queue, t) {
      assert Waiting(sets, queue, t);
    }
  }

  lemma AgendaPushed(agenda: int, sets: map<nat, seq<Cell>>, lists: map<nat, Lists>, queue: seq<nat>, c: nat, cells: seq<Cell>, l: Lists)
    requires AgendaOk(agenda, sets, lists, queue) && |cells| > 0 && cells[0] == Num(agenda)
    requires c !in queue && l.pending != []
    ensures AgendaOk(c, sets[c := cells], lists[c := l], [c] + queue)
  {
    var after, q := sets[c := cells], [c] + queue;
    forall t | 0 <= t < |q| ensures Waiting(after, q, t) {
      if t > 0 {
        assert Waiting(sets, queue, t - 1);
        assert queue[t - 1] in queue;
      }
    }
    forall i, j | 0 <= i < j < |q| ensures q[i] != q[j] {
      assert queue[j - 1] in queue;
    }
    forall d: nat ensures d in q <==> d in lists[c := l] && lists[c := l][d].pending != [] {
      assert d in q <==> d == c || d in queue;
    }
  }

  lemma AgendaPopped(agenda: int, sets: map<nat, seq<Cell>>, lists: map<nat, Lists>, queue: seq<nat>, cells: seq<Cell>, l: Lists)
    requires AgendaOk(agenda, sets, lists, queue) && agenda >= 0 && l.pending == []
    ensures queue != [] && queue[0] == agenda && agenda in sets && agenda in lists && lists[agenda].pending != []
    ensures |sets[agenda]| > 0 && sets[agenda][0].Num?
    ensures AgendaOk(sets[agenda][0].n, sets[agenda := cells], lists[agenda := l], queue[1..])
  {
    assert Waiting(sets, queue, 0) && agenda in queue;
    var after, q := sets[agenda := cells], queue[1..];
    forall t | 0 <= t < |q| ensures Waiting(after, q, t) {
      assert Waiting(sets, queue, t + 1);
    }
    forall d: nat ensures d in q <==> d in lists[agenda := l] && lists[agenda := l][d].pending != [] {
      assert d in queue <==> d == queue[0] || d in q;
    }
  }

  // ----- items -----

  ghost predicate ItemsOk(has: set<(nat, nat)>, done: set<(nat, nat)>, lists: map<nat, Lists>) {
    && (forall c: nat, i: nat :: (c, i) in has <==> c in lists && (i in lists[c].merged || i in lists[c].pending))
    && (forall c: nat, i: nat :: (c, i) in done <==> c in lists && i in lists[c].merged)
  }

  ghost predicate SetsOk(sets: map<nat, seq<Cell>>, lists: map<nat, Lists>, num: nat) {
    sets.Keys == lists.Keys && forall c :: c in sets ==> SetOk(sets[c], num, lists[c])
  }

  function PairUp(c: nat, s: seq<nat>): set<(nat, nat)> {
    set i | i in s :: (c, i)
  }

  lemma SetAt(sets: map<nat, seq<Cell>>, lists: map<nat, Lists>, num: nat, c: nat)
    requires SetsOk(sets, lists, num) && c in sets
    ensures c in lists && SetOk(sets[c], num, lists[c])
    ensures |sets[c]| == num + 6
  {
  }

  lemma SetStored(sets: map<nat, seq<Cell>>, lists: map<nat, Lists>, num: nat, c: nat, cells: seq<Cell>, l: Lists)
    requires SetsOk(sets, lists, num) && SetOk(cells, num, l)
    ensures SetsOk(sets[c := cells], lists[c := l], num)
  {
    hide SetOk;
  }

  lemma NoItems(has: set<(nat, nat)>, done: set<(nat, nat)>, lists: map<nat, Lists>, c: nat)
    requires ItemsOk(has, done, lists) && c !in lists
    ensures ItemsOk(has, done, lists[c := Lists([], [])])
  {
  }

  class State {
    const num: nat
    var agenda: int
    var sets: map<nat, seq<Cell>>
    ghost var lists: map<nat, Lists>
    ghost var queue: seq<nat>
    /** All items (configuration, start), and those already dealt with. */
    ghost var has: set<(nat, nat)>
    ghost var done: set<(nat, nat)>

    ghost predicate Valid()
      reads this
    {
      SetsOk(sets, lists, num) && AgendaOk(agenda, sets, lists, queue) && ItemsOk(has, done, lists)
    }

    ghost function Merged(c: nat): seq<nat>
      reads this
    {
      if c in lists then lists[c].merged else []
    }

    constructor (num: nat)
      ensures Valid() && this.num == num && has == {} && done == {} && sets == map[]
    {
      this.num := num;
      agenda := -1;
      sets, lists, queue, has, done := map[], map[], [], {}, {};
    }

    /** Membership is what slot 5 + i says. */
    lemma Member(c: nat, i: nat)
      requires Valid() && i <= num
      ensures c in sets ==> |sets[c]| == num + 6 && (sets[c][i + 5] == False <==> (c, i) !in has)
      ensures c !in sets ==> (c, i) !in has
    {
    }

    lemma HasBounds(c: nat, i: nat)
      requires Valid() && (c, i) in has
      ensures c in sets && i <= num
    {
      MembersBounded(sets[c], num, lists[c]);
    }

    /** A set that is there, or a new empty one. */
    method GetSet(c: nat)
      requires Valid()
      modifies this
      ensures Valid() && has == old(has) && done == old(done)
      ensures sets.Keys == old(sets.Keys) + {c}
      ensures forall d :: Merged(d) == old(Merged(d))
    {
      if c !in sets {
        var cells := seq(num + 6, _ => False);
        cells := cells[1 := Num(-3)][2 := Num(-1)][3 := Num(-1)][4 := Num(-1)];
        assert SetOk(cells, num, Lists([], []));
        AgendaKept(agenda, sets, lists, queue, c, cells, Lists([], []));
        SetStored(sets, lists, num, c, cells, Lists([], []));
        NoItems(has, done, lists, c);
        hide AgendaOk, SetOk, SetsOk, ItemsOk;
        sets := sets[c := cells];
        lists := lists[c := Lists([], [])];
      }
    }

    /** Adds a new member to a set, and the set to the agenda unless it is there. */
    method Adjoin(c: nat, i: nat)
      requires Valid() && c in sets && i <= num && (c, i) !in has
      modifies this
      ensures Valid() && has == old(has) + {(c, i)} && done == old(done)
      ensures sets.Keys == old(sets.Keys)
      ensures forall d :: Merged(d) == old(Merged(d))
    {
      hide AgendaOk, SetsOk, ItemsOk;
      var cells := sets[c];
      Member(c, i);
      SetAt(sets, lists, num, c);
      AdjoinOk(cells, num, lists[c], i);
      PendingTail(c);
      hide SetOk;
      ghost var l := Lists(lists[c].merged, lists[c].pending + [i]);
      var tail := cells[3].n;
      cells := cells[i + 5 := Num(-1)];
      cells := cells[tail + 5 := Num(i)];
      cells := cells[3 := Num(i)];
      if tail < 0 {
        SlotZero(cells, num, l, agenda);
        cells := cells[0 := Num(agenda)];
        AgendaPushed(agenda, sets, lists, queue, c, cells, l);
        agenda := c;
        queue := [c] + queue;
      } else {
        AgendaKept(agenda, sets, lists, queue, c, cells, l);
      }
      SetStored(sets, lists, num, c, cells, l);
      ItemAdded(has, done, lists, c, i);
      hide AgendaOk, SetsOk, ItemsOk;
      sets := sets[c := cells];
      lists := lists[c := l];
      has := has + {(c, i)};
    }

    /**
      Takes the first configuration off the agenda and moves its new members behind
      the others; head is the first of them.  A negative number when there is none.
    */
    method TakeNext() returns (conf: int, head: int, ghost start: nat)
      requires Valid()
      modifies this
      ensures Valid() && has == old(has) && sets.Keys == old(sets.Keys)
      ensures conf < 0 ==> done == has && done == old(done) && (forall d :: Merged(d) == old(Merged(d)))
      ensures conf >= 0 ==> conf in sets && start == |old(Merged(conf))| < |Merged(conf)| && head == Merged(conf)[start]
      ensures conf >= 0 ==> done == old(done) + PairUp(conf, Merged(conf)[start..])
      ensures conf >= 0 ==> done != old(done) && forall i: nat :: (conf, i) in has ==> (conf, i) in done
      ensures conf >= 0 ==> forall d :: d != conf ==> Merged(d) == old(Merged(d))
      ensures conf >= 0 ==> old(Merged(conf)) == Merged(conf)[..start]
    {
      hide SetsOk, SetOk;
      start := 0;
      conf := agenda;
      head := -1;
      if conf >= 0 {
        AgendaPopped(agenda, sets, lists, queue, [], Lists([], []));
        ghost var old_ := lists[conf];
        ghost var l := Lists(old_.merged + old_.pending, []);
        SetAt(sets, lists, num, conf);
        MergeOk(sets[conf], num, lists[conf]);
        MembersBounded(sets[conf], num, lists[conf]);
        SetHeads(sets[conf], num, lists[conf]);
        var cells := sets[conf];
        head := cells[4].n;
        agenda := cells[0].n;
        cells := cells[cells[1].n + 5 := cells[4]];
        cells := cells[1 := cells[3]];
        cells := cells[3 := Num(-1)];
        cells := cells[4 := Num(-1)];
        AgendaPopped(old(agenda), sets, lists, queue, cells, l);
        SetStored(sets, lists, num, conf, cells, l);
        ItemsMerged(has, done, lists, conf);
        hide AgendaOk, ItemsOk;
        start := |old_.merged|;
        assert l.merged[start..] == old_.pending && l.merged[..start] == old_.merged;
        sets := sets[conf := cells];
        lists := lists[conf := l];
        queue := queue[1..];
        done := done + PairUp(conf, l.merged[start..]);
      } else {
        AgendaEmpty();
      }
    }

    lemma AgendaEmpty()
      requires Valid() && agenda < 0
      ensures done == has
    {
      assert forall c: nat :: c !in queue;
      forall p: (nat, nat) ensures p in done <==> p in has {
        assert p == (p.0, p.1);
      }
    }

    /** Reading along the list of members already dealt with. */
    lemma MergedAt(c: nat, t: nat)
      requires Valid() && t < |Merged(c)|
      ensures c in sets && Merged(c)[t] <= num && |sets[c]| == num + 6
      ensures sets[c][Merged(c)[t] + 5] == Num(After(Merged(c), t)) && (c, Merged(c)[t]) in done
    {
      ChainAt(sets[c], 2, Merged(c), t);
      assert Merged(c)[t] in Merged(c);
      MembersBounded(sets[c], num, lists[c]);
    }

    lemma MergedHead(c: nat)
      requires Valid() && c in sets
      ensures |sets[c]| == num + 6 && sets[c][2] == Num(First(Merged(c)))
    {
    }

    lemma NoSetNoMembers(c: nat)
      requires Valid() && c !in sets
      ensures Merged(c) == []
    {
    }

    /** The link of member t of a list; negative after the last one. */
    method Follow(c: nat, i: nat, ghost t: nat) returns (next: int)
      requires Valid() && t < |Merged(c)| && i == Merged(c)[t]
      ensures if next >= 0 then t + 1 < |Merged(c)| && next == Merged(c)[t + 1] else t + 1 == |Merged(c)|
    {
      MergedAt(c, t);
      next := sets[c][i + 5].n;
    }

    lemma MergedDone(c: nat)
      requires Valid()
      ensures forall i: nat :: i in Merged(c) <==> (c, i) in done
      ensures done <= has
    {
      forall p | p in done ensures p in has {
        assert p == (p.0, p.1);
      }
    }

    /** One member of the other set, and the link to its next. */
    method UnionStep(c: nat, other: State, d: nat, i: nat, ghost t: nat, ghost l: seq<nat>) returns (next: int)
      requires Valid() && other.Valid() && c in sets && d in other.sets && other.num <= num
      requires other.Merged(d) == l && t < |l| && i == l[t]
      modifies this
      ensures Valid() && other.Valid() && other.Merged(d) == l && d in other.sets
      ensures has == old(has) + {(c, i)} && done == old(done) && sets.Keys == old(sets.Keys)
      ensures forall e :: Merged(e) == old(Merged(e))
      ensures if next >= 0 then t + 1 < |l| && next == l[t + 1] else t + 1 == |l|
    {
      hide SetsOk, AgendaOk, ItemsOk, SetOk;
      other.MergedAt(d, t);
      AdjoinAbsent(c, i);
      other.MergedAt(d, t);
      next := other.sets[d][i + 5].n;
    }

    /** Adds all members of another set that are already dealt with. */
    method Union(c: nat, other: State, d: nat)
      requires Valid() && other.Valid() && c in sets && d in other.sets && other.num <= num
      modifies this
      ensures Valid() && has == old(has) + PairUp(c, old(other.Merged(d))) && done == old(done)
      ensures sets.Keys == old(sets.Keys)
      ensures forall e :: Merged(e) == old(Merged(e))
    {
      other.MergedHead(d);
      hide SetsOk, AgendaOk, ItemsOk, PairUp, SetOk;
      UnionFrom(c, other, d, other.sets[d][2].n, other.Merged(d));
    }

    /** The walk along the other set's list. */
    method UnionFrom(c: nat, other: State, d: nat, first: int, ghost l: seq<nat>)
      requires Valid() && other.Valid() && c in sets && d in other.sets && other.num <= num
      requires other.Merged(d) == l && first == First(l)
      modifies this
      ensures Valid() && has == old(has) + PairUp(c, l) && done == old(done)
      ensures sets.Keys == old(sets.Keys)
      ensures forall e :: Merged(e) == old(Merged(e))
    {
      ghost var t := 0;
      var i := first;
      assert PairUp(c, l[..t]) == {};
      assert l[..|l|] == l;
      assert if i >= 0 then t < |l| && i == l[t] else t == |l|;
      hide PairUp, Valid, Merged, First;
      while i >= 0
        modifies this
        invariant if i >= 0 then t < |l| && i == l[t] else t == |l|
        invariant Valid() && other.Valid() && other.Merged(d) == l && sets.Keys == old(sets.Keys)
        invariant d in other.sets
        invariant has == old(has) + PairUp(c, l[..t]) && done == old(done)
        invariant forall e :: Merged(e) == old(Merged(e))
        decreases |l| - t
      {
        PairUpMore(old(has), c, l, t);
        i := UnionStep(c, other, d, i, t, l);
        t := t + 1;
      }
    }

    /** The set of c, with all members of another set added. */
    method GetUnion(c: nat, other: State, d: nat)
      requires Valid() && other.Valid() && d in other.sets && other.num <= num
      modifies this
      ensures Valid() && has == old(has) + PairUp(c, old(other.Merged(d))) && done == old(done)
      ensures sets.Keys == old(sets.Keys) + {c}
      ensures forall e :: Merged(e) == old(Merged(e))
    {
      hide PairUp, Valid;
      GetSet(c);
      if other != this {
        assert other.Valid();
      }
      Union(c, other, d);
    }

    /** The test before an addition: `conf_set[i + 5] === false`. */
    method AdjoinAbsent(c: nat, i: nat)
      requires Valid() && c in sets && i <= num
      modifies this
      ensures Valid() && has == old(has) + {(c, i)} && done == old(done)
      ensures sets.Keys == old(sets.Keys)
      ensures forall d :: Merged(d) == old(Merged(d))
    {
      hide SetsOk, AgendaOk, ItemsOk;
      Member(c, i);
      if sets[c][i + 5] == False {
        Adjoin(c, i);
      }
    }

    lemma PendingTail(c: nat)
      requires Valid() && c in sets
      ensures c in lists && |sets[c]| > 5 && sets[c][3].Num? && (sets[c][3].n < 0 <==> lists[c].pending == [])
      ensures c in queue <==> lists[c].pending != []
    {
    }
  }

  /** Slot 0 is not part of a set's lists. */
  lemma SlotZero(cells: seq<Cell>, num: nat, l: Lists, n: int)
    requires SetOk(cells, num, l)
    ensures SetOk(cells[0 := Num(n)], num, l)
  {
    ChainKept(cells, 2, l.merged, 0, Num(n));
    ChainKept(cells, 4, l.pending, 0, Num(n));
    hide Chain;
  }

  lemma ItemAdded(has: set<(nat, nat)>, done: set<(nat, nat)>, lists: map<nat, Lists>, c: nat, i: nat)
    requires ItemsOk(has, done, lists) && c in lists
    ensures ItemsOk(has + {(c, i)}, done, lists[c := Lists(lists[c].merged, lists[c].pending + [i])])
  {
  }

  lemma SetHeads(cells: seq<Cell>, num: nat, l: Lists)
    requires SetOk(cells, num, l)
    ensures |cells| == num + 6 && cells[2] == Num(First(l.merged)) && cells[4] == Num(First(l.pending))
    ensures cells[1].Num? && cells[1].n + 5 != 3
  {
  }

  lemma ItemsMerged(has: set<(nat, nat)>, done: set<(nat, nat)>, lists: map<nat, Lists>, c: nat)
    requires ItemsOk(has, done, lists) && c in lists && lists[c].pending != []
    requires forall i :: i in lists[c].merged ==> i !in lists[c].pending
    ensures var l := Lists(lists[c].merged + lists[c].pending, []);
            ItemsOk(has, done + PairUp(c, lists[c].pending), lists[c := l])
    ensures done + PairUp(c, lists[c].pending) != done
    ensures forall i: nat :: (c, i) in has ==> (c, i) in done + PairUp(c, lists[c].pending)
  {
    assert (c, lists[c].pending[0]) in PairUp(c, lists[c].pending);
    assert lists[c].pending[0] in lists[c].pending;
  }

  lemma PairUpMore(base: set<(nat, nat)>, c: nat, l: seq<nat>, t: nat)
    requires t < |l|
    ensures base + PairUp(c, l[..t + 1]) == (base + PairUp(c, l[..t])) + {(c, l[t])}
  {
    assert l[..t + 1] == l[..t] + [l[t]];
  }
}
