/**
  The bounded pool that maps a task over indices, and the even split of a count.
*/
module Concurrency {
  import opened Wrappers

  import opened EvenSplit
  import opened JsInt

  /** Workers of a pool: between tasks, waiting for one, or finished. */
  datatype Stage = Ready | Waiting(index: nat) | Finished

  /** As many workers as allowed and useful, and one at least. */
  function Workers(count: nat, concurrency: int): nat {
    if concurrency <= 1 || count <= 1 then 1 else if count < concurrency then count else concurrency
  }

  /** A pool of workers that take indices from one cursor; tasks complete in any order. */
  class Pool<T> {
    const count: nat
    const concurrency: int
    var cursor: nat
    var stages: seq<Stage>
    var out: map<nat, T>

    /** Every index below the cursor is either in one worker's hands or done, and no other one is. */
    ghost predicate Valid()
      reads this
    {
      && |stages| >= 1 && (concurrency >= 1 ==> |stages| <= concurrency) && |stages| <= count
      && (forall i :: i in out ==> i < cursor && i < count)
      && (forall w :: 0 <= w < |stages| && stages[w].Waiting? ==> stages[w].index < cursor && stages[w].index < count && stages[w].index !in out)
      && (forall v, w :: 0 <= v < w < |stages| && stages[v].Waiting? && stages[w].Waiting? ==> stages[v].index != stages[w].index)
      && (forall i: nat :: i < cursor && i < count && i !in out ==> exists w :: 0 <= w < |stages| && stages[w] == Waiting(i))
      && (forall w :: 0 <= w < |stages| && stages[w].Finished? ==> cursor >= count)
    }

    constructor (count: nat, concurrency: int)
      requires count > 0
      ensures Valid() && this.count == count && this.concurrency == concurrency && cursor == 0 && out == map[]
      ensures |stages| == Workers(count, concurrency) && forall w :: 0 <= w < |stages| ==> stages[w] == Ready
    {
      var least := if count < concurrency then count else concurrency;
      var workers := if least > 1 then least else 1;
      this.count := count;
      this.concurrency := concurrency;
      cursor := 0;
      stages := seq(workers, _ => Ready);
      out := map[];
    }

    /** A ready worker takes the next index, or finds that there is none. */
    method Take(w: nat)
      requires Valid() && w < |stages| && stages[w] == Ready
      modifies this
      ensures Valid() && out == old(out) && |stages| == |old(stages)|
      ensures stages == old(stages)[w := if old(cursor) >= count then Finished else Waiting(old(cursor))]
      ensures cursor == old(cursor) + 1
    {
      var i := cursor;
      cursor := cursor + 1;
      stages := stages[w := if i >= count then Finished else Waiting(i)];
      forall k: nat | k < cursor && k < count && k !in out ensures exists v :: 0 <= v < |stages| && stages[v] == Waiting(k) {
        if k < i {
          var v :| 0 <= v < |old(stages)| && old(stages)[v] == Waiting(k);
          assert stages[v] == Waiting(k);
        } else {
          assert stages[w] == Waiting(k);
        }
      }
    }

    /** A task completes: its result goes to its index. */
    method Complete(w: nat, result: T)
      requires Valid() && w < |stages| && stages[w].Waiting?
      modifies this
      ensures Valid() && cursor == old(cursor) && |stages| == |old(stages)|
      ensures stages == old(stages)[w := Ready] && out == old(out)[old(stages)[w].index := result] && old(stages)[w].index !in old(out)
    {
      ghost var i := stages[w].index;
      out := out[stages[w].index := result];
      stages := stages[w := Ready];
      forall k: nat | k < cursor && k < count && k !in out ensures exists v :: 0 <= v < |stages| && stages[v] == Waiting(k) {
        var v :| 0 <= v < |old(stages)| && old(stages)[v] == Waiting(k);
        assert stages[v] == Waiting(k);
      }
    }

    /** A turn of worker w. */
    method GoOn(w: nat, task: nat -> T, ghost turns: multiset<nat>)
      requires Valid() && TurnsUsed(stages, out, turns) && forall i :: i in out ==> out[i] == task(i)
      modifies this
      ensures Valid() && |stages| == |old(stages)| && TurnsUsed(stages, out, turns + multiset{w})
      ensures forall i :: i in out ==> out[i] == task(i)
    {
      if w < |stages| {
        if stages[w] == Ready {
          Take(w);
        } else if stages[w].Waiting? {
          ghost var before, i := out, stages[w].index;
          Complete(w, task(stages[w].index));
          OneMore(before, i, out[i]);
        }
      }
    }

    /** All turns of a schedule. */
    method Play(task: nat -> T, schedule: seq<nat>)
      requires Valid() && out == map[] && forall w :: 0 <= w < |stages| ==> stages[w] == Ready
      modifies this
      ensures Valid() && |stages| == |old(stages)| && TurnsUsed(stages, out, multiset(schedule))
      ensures forall i :: i in out ==> out[i] == task(i)
    {
      assert TurnsUsed(stages, out, multiset(schedule[..0]));
      hide *;
      var n := 0;
      while n < |schedule|
        invariant Valid() && |stages| == |old(stages)|
        invariant n <= |schedule| && TurnsUsed(stages, out, multiset(schedule[..n]))
        invariant forall i :: i in out ==> out[i] == task(i)
      {
        assert schedule[..n + 1] == schedule[..n] + [schedule[n]];
        GoOn(schedule[n], task, multiset(schedule[..n]));
        n := n + 1;
      }
      assert schedule[..n] == schedule;
    }

    /** A worker that has not finished has not had its turns. */
    lemma Unfinished(turns: multiset<nat>)
      requires Valid() && TurnsUsed(stages, out, turns) && exists w :: 0 <= w < |stages| && !stages[w].Finished?
      ensures exists w: nat :: w < |stages| && turns[w] <= 2 * count
    {
      var w :| 0 <= w < |stages| && !stages[w].Finished?;
      OutWithin(out, count);
      assert stages[w].Waiting? ==> stages[w].index !in out;
    }

    /** When all workers have finished, every index has its result. */
    lemma AllDone()
      requires Valid() && forall w :: 0 <= w < |stages| ==> stages[w].Finished?
      ensures forall i: nat :: i < count ==> i in out
    {
      assert stages[0].Finished?;
    }
  }

  /**
    The bookkeeping of who goes on: a worker that has not finished has used two turns for
    each result it has, and one more if it waits.
  */
  ghost predicate TurnsUsed<T>(stages: seq<Stage>, out: map<nat, T>, turns: multiset<nat>) {
    forall w :: 0 <= w < |stages| && !stages[w].Finished? ==> turns[w] <= 2 * |out| + if stages[w].Waiting? then 1 else 0
  }

  lemma OneMore<T>(out: map<nat, T>, i: nat, result: T)
    requires i !in out
    ensures |out[i := result]| == |out| + 1
  {
    assert out[i := result].Keys == out.Keys + {i};
    assert |out.Keys| == |out| && |out[i := result].Keys| == |out[i := result]|;
  }

  lemma OutWithin<T>(out: map<nat, T>, count: nat)
    requires forall i :: i in out ==> i < count
    ensures |out| <= count
    ensures forall i: nat :: i < count && i !in out ==> |out| < count
  {
    var all := UpTo(count);
    UpToIs(count);
    assert out.Keys <= all;
    SubsetSize(out.Keys, all);
    forall i: nat | i < count && i !in out ensures |out| < count {
      SubsetSize(out.Keys, all - {i});
    }
  }

  function UpTo(n: nat): set<nat> {
    if n == 0 then {} else UpTo(n - 1) + {n - 1}
  }

  lemma {:induction false} UpToIs(n: nat)
    ensures |UpTo(n)| == n && forall i: nat :: i in UpTo(n) <==> i < n
  {
    if n > 0 {
      UpToIs(n - 1);
    }
  }

  lemma {:induction false} SubsetSize(a: set<nat>, b: set<nat>)
    requires a <= b
    ensures |a| <= |b|
  {
    if a != {} {
      var x :| x in a;
      SubsetSize(a - {x}, b - {x});
    }
  }

  /**
    The whole map under a schedule: each entry names the worker that goes on next.
    Whatever the order, a result is the task's result for that very index; and the map is
    complete if each worker gets more than two turns for each index.
  */
  method MapWithConcurrency<T>(count: nat, concurrency: int, task: nat -> T, schedule: seq<nat>) returns (out: Option<seq<T>>)
    ensures count == 0 ==> out == Some([])
    ensures out.Some? ==> |out.value| == count && forall i :: 0 <= i < count ==> out.value[i] == task(i)
    ensures (forall w: nat :: w < Workers(count, concurrency) ==> multiset(schedule)[w] > 2 * count) ==> out.Some?
  {
    if count == 0 {
      return Some([]);
    }
    var pool := new Pool<T>(count, concurrency);
    pool.Play(task, schedule);
    if forall w :: 0 <= w < |pool.stages| ==> pool.stages[w].Finished? {
      pool.AllDone();
      out := Some(seq(count, i requires 0 <= i < count && i in pool.out reads pool => pool.out[i]));
    } else {
      pool.Unfinished(multiset(schedule));
      out := None;
    }
  }

  // ----- splitCounts -----

  function Sum(s: seq<nat>): nat {
    if s == [] then 0 else Sum(s[..|s| - 1]) + s[|s| - 1]
  }

  lemma NoSum()
    ensures Sum([]) == 0
  {
  }

  lemma SumSnoc(s: seq<nat>, n: nat)
    ensures Sum(s + [n]) == Sum(s) + n
  {
    assert (s + [n])[..|s|] == s;
  }

  /** A count in positive parts that differ by one at most and add up to it. */
  method SplitCounts(total: nat, parts: int) returns (out: seq<nat>)
    ensures Sum(out) == total
    ensures forall n :: n in out ==> n > 0
    ensures |out| == Smaller(total, if ToInt32(parts) > 1 then ToInt32(parts) else 1)
    ensures forall i, j :: 0 <= i < j < |out| ==> out[j] <= out[i] <= out[j] + 1
  {
    var p: nat := if ToInt32(parts) > 1 then ToInt32(parts) else 1;
    out := [];
    var base := total / p;
    var rem := total % p;
    ghost var extra := rem;
    assert forall k: nat :: ShareOf(total, p, k) == base + if k < extra then 1 else 0;
    StartNext(total, p, 0);
    hide ToInt32, StartOf, ShareOf, Sum;
    assert Sum([]) == 0 by { NoSum(); }
    var i := 0;
    while i < p
      invariant i <= p && |out| == Smaller(i, Smaller(total, p)) && rem == (if i < extra then extra - i else 0)
      invariant Sum(out) == StartOf(total, p, i)
      invariant forall k :: 0 <= k < |out| ==> out[k] == ShareOf(total, p, k)
    {
      StartNext(total, p, i);
      SharesFall(total, p, i);
      var n := base + (if rem > 0 then 1 else 0);
      if rem > 0 {
        rem := rem - 1;
      }
      if n > 0 {
        SumSnoc(out, n);
        out := out + [n];
      }
      i := i + 1;
    }
    CountsFall(out, total, p);
  }

  lemma CountsFall(out: seq<nat>, total: nat, p: nat)
    requires p > 0 && |out| == Smaller(total, p) && forall k :: 0 <= k < |out| ==> out[k] == ShareOf(total, p, k)
    ensures forall n :: n in out ==> n > 0
    ensures forall i, j :: 0 <= i < j < |out| ==> out[j] <= out[i] <= out[j] + 1
  {
    forall k | 0 <= k < |out|
      ensures out[k] > 0 && forall j :: k < j < |out| ==> out[j] <= out[k] <= out[j] + 1
    {
      SharesFall(total, p, k);
    }
    hide ShareOf;
  }
}
