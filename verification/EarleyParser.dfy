/**
  The parser: the forward pass that fills the chart, the backward pass that keeps
  the items that are part of a parse, and the questions asked of the result.
*/
module EarleyParsers {
  import opened Wrappers
  import opened EarleyGrammars
  import opened EarleyTables
  import opened EarleyCharts
  import opened EarleyParses
  import Sets = EarleySets

  type State = Sets.State

  /** State k is number k; so states with different numbers are different objects. */
  ghost predicate Numbered(states: seq<State>) {
    forall k: nat :: k < |states| ==> states[k].num == k
  }

  ghost predicate TablesFor(p: Problem, t: Tables) {
    t.nts == p.nts && TablesOk(p.g, t, p.info)
  }

  /** These states are finished, with these items. */
  ghost predicate Fixed(states: seq<State>, chart: seq<set<Item>>)
    reads states
  {
    && |chart| == |states|
    && (forall k: nat :: k < |chart| ==> states[k].Valid() && states[k].has == chart[k] && states[k].done == chart[k])
  }

  lemma FixedAt(states: seq<State>, chart: seq<set<Item>>, k: nat)
    requires Fixed(states, chart) && k < |states|
    ensures states[k].Valid() && states[k].has == chart[k] && states[k].done == chart[k]
  {
  }

  /** A state is none of the earlier ones. */
  lemma Later(states: seq<State>, j: nat)
    requires Numbered(states) && j < |states|
    ensures states[j].num == j && states[j] !in states[..j]
    ensures forall k: nat :: k < j ==> states[k].num == k && states[..j][k] == states[k]
  {
  }

  /** All items there can be in state j. */
  ghost function Universe(p: Problem, j: nat): set<Item> {
    set c: nat, i: nat | c < |p.info| && i <= j :: (c, i)
  }

  lemma SoundBounded(p: Problem, has: set<Item>, j: nat)
    requires Sound(p, has, j)
    ensures has <= Universe(p, j)
  {
    forall x | x in has ensures x in Universe(p, j) {
      assert x == (x.0, x.1);
      assert ItemSound(p, x.0, x.1, j);
    }
  }

  lemma SoundPlus(p: Problem, has: set<Item>, j: nat, c: nat, s: seq<nat>)
    requires Sound(p, has, j) && forall i :: i in s ==> ItemSound(p, c, i, j)
    ensures Sound(p, has + Sets.PairUp(c, s), j)
  {
    hide ItemSound;
  }

  lemma SoundPlus1(p: Problem, has: set<Item>, j: nat, c: nat, i: nat)
    requires Sound(p, has, j) && ItemSound(p, c, i, j)
    ensures Sound(p, has + {(c, i)}, j)
  {
    hide ItemSound;
  }

  lemma SoundAt(p: Problem, has: set<Item>, j: nat, c: nat, i: nat)
    requires Sound(p, has, j) && (c, i) in has
    ensures ItemSound(p, c, i, j) && c < |p.info|
  {
  }

  lemma InPairs(c: nat, s: seq<nat>, i: nat)
    ensures (c, i) in Sets.PairUp(c, s) <==> i in s
  {
  }

  // ----- the forward pass -----

  /** Starts the rules of a symbol at the state's own position. */
  method StartRules(st: State, l: seq<nat>, ghost p: Problem, ghost s: Sym)
    requires st.Valid() && Sound(p, st.has, st.num) && st.num <= |p.toks|
    requires forall c :: c in l ==> c < |p.info| && Starts(p.info[c], s)
    modifies st
    ensures st.Valid() && Sound(p, st.has, st.num) && st.done == old(st.done) && old(st.has) <= st.has
    ensures old(st.sets.Keys) <= st.sets.Keys
    ensures forall c :: c in l ==> (c, st.num) in st.has
    ensures forall d :: st.Merged(d) == old(st.Merged(d))
  {
    hide *;
    var n := 0;
    while n < |l|
      invariant n <= |l| && st.Valid() && Sound(p, st.has, st.num) && st.done == old(st.done) && old(st.has) <= st.has
      invariant old(st.sets.Keys) <= st.sets.Keys
      invariant forall m :: 0 <= m < n ==> (l[m], st.num) in st.has
      invariant forall d :: st.Merged(d) == old(st.Merged(d))
    {
      assert l[n] in l;
      StarterSound(p, l[n], s, st.num);
      SoundPlus1(p, st.has, st.num, l[n], st.num);
      st.GetSet(l[n]);
      st.AdjoinAbsent(l[n], st.num);
      n := n + 1;
    }
  }

  /** If the symbol is already complete here from here on, the dot moves at once. */
  method AdvanceEmpty(st: State, conf: nat, l: seq<nat>, ghost p: Problem, ghost s: Sym)
    requires InfoOk(p.g, p.nts, p.info) && st.Valid() && Sound(p, st.has, st.num) && st.num <= |p.toks|
    requires conf in st.sets && conf < |p.info| && Before(p.info[conf], s)
    requires forall e :: e in l ==> e < |p.info| && Completes(p.info[e], s)
    modifies st
    ensures st.Valid() && Sound(p, st.has, st.num) && st.done == old(st.done) && old(st.has) <= st.has
    ensures forall e, i: nat :: e in l && (e, st.num) in st.done && (conf, i) in st.done ==> (conf + 1, i) in st.has
  {
    hide *;
    ghost var members := st.Merged(conf);
    var n := 0;
    while n < |l|
      invariant n <= |l| && st.Valid() && Sound(p, st.has, st.num) && st.done == old(st.done) && old(st.has) <= st.has
      invariant conf in st.sets && st.Merged(conf) == members
      invariant forall m :: 0 <= m < n && (l[m], st.num) in st.done ==> Sets.PairUp(conf + 1, members) <= st.has
    {
      var ender := l[n];
      st.Member(ender, st.num);
      st.MergedDone(conf);
      if ender in st.sets && st.sets[ender][st.num + 5] != Sets.False {
        assert ender in l;
        AdvanceAll(p, ender, conf, s, st.num, st.num, members, st.has, st.has);
        st.GetUnion(conf + 1, st, conf);
      }
      n := n + 1;
    }
    st.MergedDone(conf);
    forall e, i: nat | e in l && (e, st.num) in st.done && (conf, i) in st.done ensures (conf + 1, i) in st.has {
      InPairs(conf + 1, members, i);
    }
  }

  /**
    Symbol s is complete from k on for each new member k of conf: the dots before it
    in state k move.  This is the part for one configuration before whose dot s stands.
  */
  method AdvancePredictor(states: seq<State>, j: nat, conf: nat, pred: nat, head: int, ghost start: nat,
                          ghost p: Problem, ghost chart: seq<set<Item>>, ghost s: Sym)
    requires InfoOk(p.g, p.nts, p.info) && Numbered(states) && |chart| == j && ChartOk(p, chart, j) && j <= |p.toks|
    requires j < |states| && Fixed(states[..j], chart) && states[j].Valid() && Sound(p, states[j].has, j)
    requires conf in states[j].sets && conf < |p.info| && Completes(p.info[conf], s)
    requires pred < |p.info| && Before(p.info[pred], s)
    requires start < |states[j].Merged(conf)| && head == states[j].Merged(conf)[start]
    modifies states[j]
    ensures Fixed(states[..j], chart) && states[j].Valid() && Sound(p, states[j].has, j) && states[j].done == old(states[j].done)
    ensures old(states[j].has) <= states[j].has && conf in states[j].sets && states[j].Merged(conf) == old(states[j].Merged(conf))
    ensures forall k: nat, i: nat :: k in states[j].Merged(conf)[start..] && k <= j && (pred, i) in (chart + [states[j].done])[k] ==>
              (pred + 1, i) in states[j].has
  {
    hide *;
    var st := states[j];
    ghost var members, done := st.Merged(conf), st.done;
    ghost var t := start;
    var i := head;
    while i >= 0
      invariant start <= t <= |members|
      invariant if i >= 0 then t < |members| && i == members[t] else t == |members|
      invariant Fixed(states[..j], chart) && st.Valid() && st.done == done && st.Merged(conf) == members && conf in st.sets
      invariant old(st.has) <= st.has && Sound(p, st.has, j)
      invariant forall k: nat, i: nat :: k in members[start..t] && k <= j && (pred, i) in (chart + [done])[k] ==> (pred + 1, i) in st.has
      decreases |members| - t
    {
      assert members[start..t + 1] == members[start..t] + [members[t]];
      i := AdvanceFrom(states, j, conf, pred, i, t, p, chart, s);
      t := t + 1;
    }
    assert members[start..t] == members[start..];
  }

  /** The same for one new member k. */
  method AdvanceFrom(states: seq<State>, j: nat, conf: nat, pred: nat, k: nat, ghost t: nat,
                     ghost p: Problem, ghost chart: seq<set<Item>>, ghost s: Sym) returns (next: int)
    requires InfoOk(p.g, p.nts, p.info) && Numbered(states) && |chart| == j && ChartOk(p, chart, j) && j <= |p.toks|
    requires j < |states| && Fixed(states[..j], chart) && states[j].Valid() && Sound(p, states[j].has, j)
    requires conf in states[j].sets && conf < |p.info| && Completes(p.info[conf], s)
    requires pred < |p.info| && Before(p.info[pred], s)
    requires t < |states[j].Merged(conf)| && k == states[j].Merged(conf)[t]
    modifies states[j]
    ensures Fixed(states[..j], chart) && states[j].Valid() && Sound(p, states[j].has, j) && states[j].done == old(states[j].done)
    ensures old(states[j].has) <= states[j].has && conf in states[j].sets && states[j].Merged(conf) == old(states[j].Merged(conf))
    ensures k <= j
    ensures forall i: nat :: (pred, i) in (chart + [states[j].done])[k] ==> (pred + 1, i) in states[j].has
    ensures if next >= 0 then t + 1 < |states[j].Merged(conf)| && next == states[j].Merged(conf)[t + 1]
            else t + 1 == |states[j].Merged(conf)|
  {
    hide *;
    var st := states[j];
    Later(states, j);
    ghost var members, done := st.Merged(conf), st.done;
    st.MergedAt(conf, t);
    SourceAt(states, chart, j, k, p);
    var from := states[k];
    ghost var sources := from.Merged(pred);
    from.MergedDone(pred);
    if pred in from.sets {
      st.MergedDone(conf);
      AdvanceAll(p, conf, pred, s, k, j, sources, from.has, st.has);
      st.GetUnion(pred + 1, from, pred);
    } else {
      from.NoSetNoMembers(pred);
    }
    forall i: nat | (pred, i) in (chart + [done])[k] ensures (pred + 1, i) in st.has {
      InPairs(pred + 1, sources, i);
    }
    next := st.Follow(conf, k, t);
  }

  lemma SourceAt(states: seq<State>, chart: seq<set<Item>>, j: nat, k: nat, p: Problem)
    requires |chart| == j < |states| && k <= j && Fixed(states[..j], chart) && states[j].Valid()
    requires ChartOk(p, chart, j) && Sound(p, states[j].has, j)
    ensures states[k].Valid() && states[k].done == (chart + [states[j].done])[k] && Sound(p, states[k].has, k)
  {
    if k < j {
      FixedAt(states[..j], chart, k);
    }
  }

  lemma AdvanceAll(p: Problem, conf: nat, pred: nat, s: Sym, k: nat, j: nat, sources: seq<nat>, from: set<Item>, has: set<Item>)
    requires InfoOk(p.g, p.nts, p.info) && Sound(p, from, k) && Sound(p, has, j) && (conf, k) in has
    requires conf < |p.info| && Completes(p.info[conf], s) && pred < |p.info| && Before(p.info[pred], s)
    requires forall i :: i in sources ==> (pred, i) in from
    ensures Sound(p, has + Sets.PairUp(pred + 1, sources), j)
  {
    hide *;
    forall i | i in sources ensures ItemSound(p, pred + 1, i, j) {
      SoundAt(p, from, k, pred, i);
      SoundAt(p, has, j, conf, k);
      AdvanceSound(p, pred, conf, s, i, k, j);
    }
    SoundPlus(p, has, j, pred + 1, sources);
  }

  /** Completion: the dots move in all configurations with the completed symbol after the dot. */
  method Complete(states: seq<State>, j: nat, conf: nat, l: seq<nat>, head: int, ghost start: nat,
                  ghost p: Problem, ghost chart: seq<set<Item>>, ghost s: Sym)
    requires InfoOk(p.g, p.nts, p.info) && Numbered(states) && |chart| == j && ChartOk(p, chart, j) && j <= |p.toks|
    requires j < |states| && Fixed(states[..j], chart) && states[j].Valid() && Sound(p, states[j].has, j)
    requires conf in states[j].sets && conf < |p.info| && Completes(p.info[conf], s)
    requires forall c :: c in l ==> c < |p.info| && Before(p.info[c], s)
    requires start < |states[j].Merged(conf)| && head == states[j].Merged(conf)[start]
    modifies states[j]
    ensures Fixed(states[..j], chart) && states[j].Valid() && Sound(p, states[j].has, j) && states[j].done == old(states[j].done)
    ensures old(states[j].has) <= states[j].has && states[j].Merged(conf) == old(states[j].Merged(conf))
    ensures forall c, k: nat, i: nat :: c in l && k in states[j].Merged(conf)[start..] && k <= j && (c, i) in (chart + [states[j].done])[k] ==>
              (c + 1, i) in states[j].has
  {
    hide *;
    var st := states[j];
    ghost var members, done := st.Merged(conf), st.done;
    var n := 0;
    while n < |l|
      invariant n <= |l| && Fixed(states[..j], chart) && st.Valid() && st.done == done && st.Merged(conf) == members && conf in st.sets
      invariant old(st.has) <= st.has && Sound(p, st.has, j)
      invariant forall m, k: nat, i: nat :: 0 <= m < n && k in members[start..] && k <= j && (l[m], i) in (chart + [done])[k] ==>
                  (l[m] + 1, i) in st.has
    {
      assert l[n] in l;
      AdvancePredictor(states, j, conf, l[n], head, start, p, chart, s);
      n := n + 1;
    }
  }

  /** What the step table says of a configuration. */
  lemma StepAt(p: Problem, t: Tables, c: nat)
    requires TablesFor(p, t) && c < |p.info|
    ensures c < |t.steps| && -|t.nts| <= t.steps[c] < |t.nts|
    ensures |t.starters| == |t.enders| == |t.predictors| == |t.nts|
    ensures t.steps[c] >= 0 ==> Before(p.info[c], t.nts[t.steps[c]])
    ensures t.steps[c] < 0 ==> Completes(p.info[c], t.nts[t.steps[c] + |t.nts|])
  {
  }

  lemma TableAt(p: Problem, t: Tables, s: nat)
    requires TablesFor(p, t) && s < |t.nts|
    ensures |t.starters| == |t.enders| == |t.predictors| == |t.nts| && InfoOk(p.g, p.nts, p.info)
    ensures forall c: nat :: c in t.starters[s] <==> c < |p.info| && Starts(p.info[c], t.nts[s])
    ensures forall c: nat :: c in t.enders[s] <==> c < |p.info| && Completes(p.info[c], t.nts[s])
    ensures forall c: nat :: c in t.predictors[s] <==> c < |p.info| && Before(p.info[c], t.nts[s])
  {
    hide InfoOk, Starts, Completes, Before;
  }

  lemma WorkingParts(p: Problem, chart: seq<set<Item>>, j: nat, has: set<Item>, done: set<Item>)
    requires Working(p, chart, j, has, done)
    ensures |chart| == j && ChartOk(p, chart, j) && Sound(p, has, j) && done <= has && Seeded(p, has, j)
    ensures Closing(p, chart, j, has, done)
  {
  }

  lemma WorkingAgain(p: Problem, chart: seq<set<Item>>, j: nat, before: set<Item>, has: set<Item>, done: set<Item>)
    requires |chart| == j && ChartOk(p, chart, j) && Sound(p, has, j) && done <= has && Seeded(p, before, j) && before <= has
    requires Closing(p, chart, j, has, done)
    ensures Working(p, chart, j, has, done)
  {
  }

  /** One configuration off the agenda. */
  method Step(states: seq<State>, j: nat, t: Tables, ghost p: Problem, ghost chart: seq<set<Item>>) returns (more: bool)
    requires TablesFor(p, t) && Numbered(states) && |chart| == j && j <= |p.toks|
    requires j < |states| && Fixed(states[..j], chart) && states[j].Valid() && Working(p, chart, j, states[j].has, states[j].done)
    modifies states[j]
    ensures Fixed(states[..j], chart) && states[j].Valid() && Working(p, chart, j, states[j].has, states[j].done)
    ensures if more then old(states[j].done) < states[j].done else states[j].done == states[j].has == old(states[j].has) && states[j].done == old(states[j].done)
  {
    hide *;
    var st := states[j];
    ghost var was, had := st.done, st.has;
    Later(states, j);
    WorkingParts(p, chart, j, st.has, st.done);
    var conf, head, start := st.TakeNext();
    if conf < 0 {
      return false;
    }
    more := true;
    st.MergedDone(conf);
    ghost var members, done := st.Merged(conf), st.done;
    assert members[start] in members;
    SoundAt(p, st.has, j, conf, members[start]);
    StepAt(p, t, conf);
    NewlyDone(was, done, conf, members, start);
    var step := t.steps[conf];
    if step >= 0 {
      ghost var s := t.nts[step];
      TableAt(p, t, step);
      StartRules(st, t.starters[step], p, s);
      AdvanceEmpty(st, conf, t.enders[step], p, s);
      ClosingMore(p, chart, j, had, was, st.has);
      AllPredicted(p, st.has, s, j, t.starters[step]);
      ClosingPredict(p, chart, j, st.has, was, done, conf, s);
    } else {
      ghost var s := t.nts[step + |t.nts|];
      TableAt(p, t, step + |t.nts|);
      Complete(states, j, conf, t.predictors[step + |t.nts|], head, start, p, chart, s);
      ClosingMore(p, chart, j, had, was, st.has);
      forall c: nat, i: nat, k: nat |
        k <= j && (conf, k) in done && (conf, k) !in was && c < |p.info| && Before(p.info[c], s) && (c, i) in (chart + [done])[k]
        ensures (c + 1, i) in st.has
      {
        InPairs(conf, members[start..], k);
      }
      ClosingComplete(p, chart, j, st.has, was, done, conf, s);
    }
    WorkingAgain(p, chart, j, had, st.has, done);
  }

  lemma AllPredicted(p: Problem, has: set<Item>, s: Sym, j: nat, l: seq<nat>)
    requires forall c: nat :: c in l <==> c < |p.info| && Starts(p.info[c], s)
    requires forall c :: c in l ==> (c, j) in has
    ensures Predicted(p, has, s, j)
  {
    hide Starts;
  }

  lemma NewlyDone(was: set<Item>, done: set<Item>, conf: nat, members: seq<nat>, start: nat)
    requires start <= |members| && done == was + Sets.PairUp(conf, members[start..]) && done != was
    ensures was < done
    ensures forall x :: x in done ==> x in was || x.0 == conf
  {
  }

  /** The forward pass over state j. */
  method Forward(states: seq<State>, j: nat, t: Tables, ghost p: Problem, ghost chart: seq<set<Item>>)
    requires TablesFor(p, t) && Numbered(states) && |chart| == j && j <= |p.toks|
    requires j < |states| && Fixed(states[..j], chart) && states[j].Valid() && Working(p, chart, j, states[j].has, states[j].done)
    modifies states[j]
    ensures ChartOk(p, chart + [states[j].has], j + 1)
    ensures Fixed(states[..j + 1], chart + [states[j].has])
  {
    hide *;
    Later(states, j);
    var more := true;
    while more
      invariant Fixed(states[..j], chart) && states[j].Valid() && Working(p, chart, j, states[j].has, states[j].done)
      invariant !more ==> states[j].done == states[j].has
      decreases Universe(p, j) - states[j].done, more
    {
      ghost var before := states[j].done;
      more := Step(states, j, t, p, chart);
      WorkingParts(p, chart, j, states[j].has, states[j].done);
      SoundBounded(p, states[j].has, j);
      if more {
        Shrinks(Universe(p, j), before, states[j].done);
      }
    }
    Finished(p, chart, j, states[j].has);
    FixedMore(states, j, chart);
  }

  lemma Shrinks(u: set<Item>, a: set<Item>, b: set<Item>)
    requires a < b <= u
    ensures u - b < u - a
  {
    var x :| x in b && x !in a;
    assert x in u - a && x !in u - b;
  }

  lemma FixedMore(states: seq<State>, j: nat, chart: seq<set<Item>>)
    requires j < |states| && Fixed(states[..j], chart) && states[j].Valid() && states[j].done == states[j].has
    ensures Fixed(states[..j + 1], chart + [states[j].has])
  {
    forall k: nat | k < j + 1
      ensures states[k].Valid() && states[k].has == (chart + [states[j].has])[k] && states[k].done == states[k].has
    {
      if k < j {
        FixedAt(states[..j], chart, k);
      }
    }
  }

  // ----- the whole chart -----

  /** Adds one starting position to the sets of all listed configurations. */
  method AdjoinAll(st: State, l: seq<nat>, i: nat)
    requires st.Valid() && i <= st.num
    modifies st
    ensures st.Valid() && st.done == old(st.done)
    ensures forall x :: x in st.has <==> x in old(st.has) || (x.0 in l && x.1 == i)
  {
    hide *;
    var n := 0;
    while n < |l|
      invariant n <= |l| && st.Valid() && st.done == old(st.done)
      invariant forall x :: x in st.has <==> x in old(st.has) || (x.0 in l[..n] && x.1 == i)
    {
      assert l[..n + 1] == l[..n] + [l[n]];
      st.GetSet(l[n]);
      st.AdjoinAbsent(l[n], i);
      n := n + 1;
    }
    assert l[..n] == l;
  }

  /** The numbers of a token's symbols; symbols the grammar does not have are skipped. */
  method TokenSymbols(classes: seq<Sym>, nts: seq<Sym>) returns (l: seq<nat>)
    requires Distinct(nts)
    ensures forall c: nat :: c in l <==> c < |nts| && nts[c] in classes
  {
    l := [];
    var n := 0;
    while n < |classes|
      invariant n <= |classes|
      invariant forall c: nat :: c in l <==> c < |nts| && nts[c] in classes[..n]
    {
      assert classes[..n + 1] == classes[..n] + [classes[n]];
      var s := Ind(classes[n], nts);
      if s.Some? {
        l := l + [s.value];
      }
      n := n + 1;
    }
    assert classes[..n] == classes;
  }

  ghost predicate Blank(states: seq<State>)
    reads states
  {
    forall k: nat :: k < |states| ==> states[k].Valid() && states[k].has == {} && states[k].done == {} && states[k].sets == map[]
  }

  lemma BlankFirst(states: seq<State>, j: nat)
    requires j < |states| && Blank(states[j..])
    ensures states[j].Valid() && states[j].has == {} && states[j].done == {} && Blank(states[j + 1..])
  {
    assert states[j..][0] == states[j];
    var all, rest := states[j..], states[j + 1..];
    assert forall k: nat :: k < |rest| ==> rest[k] == all[k + 1];
  }

  /** One empty state for each position, made from the last to the first. */
  method MakeStates(n: nat) returns (states: seq<State>)
    ensures |states| == n + 1 && Numbered(states) && Blank(states) && fresh(states)
  {
    hide Sets.State.Valid;
    states := [];
    var i := n;
    while i >= 0
      invariant -1 <= i <= n && |states| == n - i && fresh(states)
      invariant forall k: nat :: k < |states| ==> states[k].num == i + 1 + k
      invariant Blank(states)
    {
      var v := new Sets.State(i);
      states := [v] + states;
      i := i - 1;
    }
  }

  lemma TablesParts(p: Problem, t: Tables)
    requires TablesFor(p, t)
    ensures t.nts == p.nts && InfoOk(p.g, p.nts, p.info) && SymbolsOk(p.g, p.nts) && Distinct(t.nts) && |t.starters| == |t.nts|
  {
  }

  /** The seeds of a state: the goal's rules, or the symbols of the token before it. */
  ghost predicate Seeds(p: Problem, t: Tables, j: nat, l: seq<nat>)
    requires j <= |p.toks|
  {
    if j == 0 then |t.nts| <= |t.starters| && l == (if |t.nts| > 0 then t.starters[0] else [])
    else forall c: nat :: c in l <==> c < |t.nts| && t.nts[c] in p.toks[j - 1].classes
  }

  lemma GoalSeeds(p: Problem, t: Tables, l: seq<nat>)
    requires TablesFor(p, t)
    ensures |t.starters| == |t.nts| && (l == (if |t.nts| > 0 then t.starters[0] else []) <==> Seeds(p, t, 0, l))
  {
    TablesParts(p, t);
    hide TablesFor;
  }

  lemma GoalSeedSound(p: Problem, t: Tables, l: seq<nat>, c: nat)
    requires TablesFor(p, t) && Seeds(p, t, 0, l) && c in l
    ensures ItemSound(p, c, 0, 0)
  {
    GoalSeeds(p, t, l);
    TableAt(p, t, 0);
    hide *;
    StarterSound(p, c, t.nts[0], 0);
  }

  lemma TokenSeedAt(p: Problem, t: Tables, j: nat, l: seq<nat>, c: nat)
    requires 0 < j <= |p.toks| && Seeds(p, t, j, l) && c in l
    ensures c < |t.nts| && t.nts[c] in p.toks[j - 1].classes
  {
  }

  lemma TokenSeedSound(p: Problem, t: Tables, j: nat, l: seq<nat>, c: nat)
    requires TablesFor(p, t) && 0 < j <= |p.toks| && Seeds(p, t, j, l) && c in l
    ensures ItemSound(p, c, j - 1, j)
  {
    hide *;
    TablesParts(p, t);
    TokenSeedAt(p, t, j, l, c);
    TokenSound(p, c, j - 1);
  }

  /** The seeds of a state are sound, and nothing is dealt with yet. */
  lemma SeedsWork(p: Problem, t: Tables, chart: seq<set<Item>>, j: nat, has: set<Item>, l: seq<nat>)
    requires TablesFor(p, t) && |chart| == j && ChartOk(p, chart, j) && j <= |p.toks| && Seeds(p, t, j, l)
    requires forall x :: x in has <==> x.0 in l && x.1 == if j == 0 then 0 else j - 1
    ensures Working(p, chart, j, has, {})
  {
    forall c: nat, i: nat | (c, i) in has ensures ItemSound(p, c, i, j) {
      assert (c, i).0 in l;
      if j == 0 {
        GoalSeedSound(p, t, l, c);
      } else {
        TokenSeedSound(p, t, j, l, c);
      }
    }
    if |t.nts| > 0 {
      TableAt(p, t, 0);
    }
    hide ItemSound, TablesOk, ChartOk, Starts;
  }

  /** State j from the token before it. */
  method FillState(states: seq<State>, j: nat, l: seq<nat>, t: Tables, ghost p: Problem, ghost chart: seq<set<Item>>)
    requires TablesFor(p, t) && Numbered(states) && |chart| == j <= |p.toks| && j < |states|
    requires Fixed(states[..j], chart) && ChartOk(p, chart, j) && Blank(states[j..]) && Seeds(p, t, j, l)
    modifies states[j]
    ensures ChartOk(p, chart + [states[j].has], j + 1)
    ensures Fixed(states[..j + 1], chart + [states[j].has]) && Blank(states[j + 1..])
  {
    hide *;
    Later(states, j);
    BlankFirst(states, j);
    LaterToo(states, j);
    AdjoinAll(states[j], l, if j == 0 then 0 else j - 1);
    SeedsWork(p, t, chart, j, states[j].has, l);
    Forward(states, j, t, p, chart);
  }

  /** The forward pass over all states. */
  method FillChart(states: seq<State>, t: Tables, toks: seq<Token>, ghost p: Problem) returns (ghost chart: seq<set<Item>>)
    requires TablesFor(p, t) && |t.starters| == |t.nts| && toks == p.toks
    requires |states| == |toks| + 1 && Numbered(states) && Blank(states)
    modifies states
    ensures Fixed(states, chart) && |chart| == |states| && ChartOk(p, chart, |chart|)
  {
    hide *;
    TablesParts(p, t);
    var l := if |t.nts| > 0 then t.starters[0] else [];
    GoalSeeds(p, t, l);
    NothingFixed(p, states);
    assert states[0..] == states;
    chart := [];
    FillState(states, 0, l, t, p, chart);
    chart := chart + [states[0].has];
    var i := 0;
    while i < |toks|
      invariant i <= |toks| && |chart| == i + 1
      invariant Fixed(states[..i + 1], chart) && ChartOk(p, chart, i + 1)
      invariant Blank(states[i + 1..])
    {
      l := TokenSymbols(toks[i].classes, t.nts);
      TokenSeeds(p, t, i, l);
      FillState(states, i + 1, l, t, p, chart);
      chart := chart + [states[i + 1].has];
      i := i + 1;
    }
    assert states[..i + 1] == states;
  }

  lemma TokenSeeds(p: Problem, t: Tables, i: nat, l: seq<nat>)
    requires i < |p.toks| && forall c: nat :: c in l <==> c < |t.nts| && t.nts[c] in p.toks[i].classes
    ensures Seeds(p, t, i + 1, l)
  {
  }

  lemma LaterToo(states: seq<State>, j: nat)
    requires Numbered(states) && j < |states|
    ensures states[j] !in states[j + 1..]
  {
    var rest := states[j + 1..];
    assert forall k: nat :: k < |rest| ==> rest[k].num == j + 1 + k;
  }

  lemma NothingFixed(p: Problem, states: seq<State>)
    ensures Fixed(states[..0], []) && ChartOk(p, [], 0)
  {
  }

  // ----- the backward pass -----

  /** The items kept so far are useful items of the chart. */
  ghost predicate Kept(p: Problem, pruned: seq<State>, chart: seq<set<Item>>)
    reads pruned
  {
    && |pruned| == |chart|
    && (forall k: nat :: k < |chart| ==> KeptIn(p, pruned[k], chart, k))
  }

  ghost predicate KeptIn(p: Problem, st: State, chart: seq<set<Item>>, k: nat)
    requires k < |chart|
    reads st
  {
    st.Valid() && st.has <= chart[k] && UsefulSet(p, st.has, k) && Used(st)
  }

  /** No set is empty. */
  ghost predicate Used(st: State)
    reads st
  {
    forall c :: c in st.sets ==> exists i: nat :: (c, i) in st.has
  }

  lemma UsedIs(st: State)
    ensures Used(st) <==> forall d :: d in st.sets.Keys ==> exists k: nat :: (d, k) in st.has
  {
  }

  lemma UsedMore(st: State, has: set<Item>, keys: set<nat>, c: nat, i: nat)
    requires forall d :: d in keys ==> exists k: nat :: (d, k) in has
    requires st.has == has + {(c, i)} && st.sets.Keys == keys + {c}
    ensures Used(st)
  {
    assert (c, i) in st.has;
    forall d | d in st.sets ensures exists k: nat :: (d, k) in st.has {
      if d != c {
        var k: nat :| (d, k) in has;
        assert (d, k) in st.has;
      }
    }
  }

  ghost function Has(pruned: seq<State>): (kept: seq<set<Item>>)
    reads pruned
    ensures |kept| == |pruned| && forall k :: 0 <= k < |pruned| ==> kept[k] == pruned[k].has
  {
    if pruned == [] then [] else Has(pruned[..|pruned| - 1]) + [pruned[|pruned| - 1].has]
  }

  ghost predicate Apart(states: seq<State>, pruned: seq<State>) {
    forall x :: x in pruned ==> x !in states
  }

  lemma KeptAt(p: Problem, pruned: seq<State>, chart: seq<set<Item>>, k: nat)
    requires Kept(p, pruned, chart) && k < |pruned|
    ensures pruned[k].Valid() && pruned[k].has <= chart[k] && UsefulSet(p, pruned[k].has, k) && Used(pruned[k])
    ensures KeptIn(p, pruned[k], chart, k)
  {
  }

  /** Keeps an item if the chart has it; the answer is whether the chart has it. */
  method Keep(states: seq<State>, pruned: seq<State>, k: nat, c: nat, i: nat, ghost p: Problem, ghost chart: seq<set<Item>>) returns (r: bool)
    requires Numbered(states) && Numbered(pruned) && Apart(states, pruned) && Fixed(states, chart) && Kept(p, pruned, chart)
    requires i <= k < |chart| && ((c, i) in chart[k] ==> Useful(p, Goal(p), c, i, k))
    modifies pruned[k]
    ensures Fixed(states, chart) && Kept(p, pruned, chart)
    ensures r <==> (c, i) in chart[k]
    ensures pruned[k].has == old(pruned[k].has) + if r then {(c, i)} else {}
    ensures pruned[k].done == old(pruned[k].done) && old(pruned[k].sets.Keys) <= pruned[k].sets.Keys
    ensures forall d :: pruned[k].Merged(d) == old(pruned[k].Merged(d))
  {
    hide Sets.State.Valid, UsefulSet, Useful, Used;
    FixedAt(states, chart, k);
    KeptAt(p, pruned, chart, k);
    ghost var has, keys := pruned[k].has, pruned[k].sets.Keys;
    UsedIs(pruned[k]);
    states[k].Member(c, i);
    if (c, i) in chart[k] {
      UsefulMore(p, pruned[k].has, k, c, i);
    }
    if c in states[k].sets && states[k].sets[c][i + 5] != Sets.False {
      pruned[k].GetSet(c);
      pruned[k].AdjoinAbsent(c, i);
      UsedMore(pruned[k], has, keys, c, i);
      r := true;
    } else {
      r := false;
    }
  }

  lemma Sizes(p: Problem, states: seq<State>, pruned: seq<State>, chart: seq<set<Item>>)
    requires Numbered(states) && Numbered(pruned) && Fixed(states, chart) && Kept(p, pruned, chart)
    ensures |pruned| == |chart| == |states|
    ensures forall k: nat :: k < |chart| ==> states[k].num == k && pruned[k].num == k
  {
  }

  /** The same, seen from all states. */
  method KeepOne(states: seq<State>, pruned: seq<State>, k: nat, ghost j: nat, c: nat, i: nat, ghost p: Problem, ghost chart: seq<set<Item>>)
    returns (r: bool)
    requires Numbered(states) && Numbered(pruned) && Apart(states, pruned) && Fixed(states, chart) && Kept(p, pruned, chart)
    requires i <= k <= j < |chart| == |pruned| && ((c, i) in chart[k] ==> Useful(p, Goal(p), c, i, k))
    modifies pruned
    ensures Fixed(states, chart) && Kept(p, pruned, chart)
    ensures r <==> (c, i) in chart[k]
    ensures r ==> (c, i) in pruned[k].has
    ensures Grew(old(Has(pruned)), Has(pruned), j)
    ensures forall m: nat :: m < |pruned| ==> pruned[m].done == old(pruned[m].done)
    ensures forall d :: pruned[j].Merged(d) == old(pruned[j].Merged(d))
  {
    Sizes(p, states, pruned, chart);
    hide *;
    assert k == j || pruned[k] != pruned[j];
    r := Keep(states, pruned, k, c, i, p, chart);
    forall m: nat | m < |pruned|
      ensures old(pruned[m].has) <= pruned[m].has && (m > j ==> pruned[m].has == old(pruned[m].has)) && pruned[m].done == old(pruned[m].done)
    {
      assert m == k || pruned[m] != pruned[k];
    }
    GrewIs(old(Has(pruned)), Has(pruned), j);
  }

  lemma GrewIs(a: seq<set<Item>>, b: seq<set<Item>>, j: nat)
    requires |a| == |b| && forall m: nat :: m < |a| ==> a[m] <= b[m] && (m > j ==> a[m] == b[m])
    ensures Grew(a, b, j)
  {
  }

  method KeepPair(states: seq<State>, pruned: seq<State>, j: nat, prev: nat, ender: nat, i: nat, k: nat, ghost p: Problem, ghost chart: seq<set<Item>>)
    requires Numbered(states) && Numbered(pruned) && Apart(states, pruned) && Fixed(states, chart) && Kept(p, pruned, chart)
    requires i <= k <= j < |chart| == |pruned| && (ender, k) in chart[j]
    requires (prev, i) in chart[k] ==> Useful(p, Goal(p), prev, i, k) && Useful(p, Goal(p), ender, k, j)
    modifies pruned
    ensures Fixed(states, chart) && Kept(p, pruned, chart)
    ensures (prev, i) in chart[k] ==> (prev, i) in pruned[k].has && (ender, k) in pruned[j].has
    ensures Grew(old(Has(pruned)), Has(pruned), j)
    ensures forall m: nat :: m < |pruned| ==> pruned[m].done == old(pruned[m].done)
    ensures forall d :: pruned[j].Merged(d) == old(pruned[j].Merged(d))
  {
    hide *;
    var found := KeepOne(states, pruned, k, j, prev, i, p, chart);
    if found {
      ghost var a := Has(pruned);
      found := KeepOne(states, pruned, j, j, ender, k, p, chart);
      GrewTwice(old(Has(pruned)), a, Has(pruned), j);
      GrewAt(a, Has(pruned), j, k);
    }
  }

  /** One way the last symbol of prev may end at j: its item, and the item of prev it follows. */
  method KeepPairs(states: seq<State>, pruned: seq<State>, j: nat, prev: nat, ender: nat, i: nat,
                   ghost p: Problem, ghost chart: seq<set<Item>>, ghost s: Sym)
    requires Numbered(states) && Numbered(pruned) && Apart(states, pruned) && Fixed(states, chart) && Kept(p, pruned, chart)
    requires InfoOk(p.g, p.nts, p.info) && ChartOk(p, chart, |chart|) && j < |chart| && ender in states[j].sets
    requires prev < |p.info| && Before(p.info[prev], s) && ender < |p.info| && Completes(p.info[ender], s)
    requires Useful(p, Goal(p), prev + 1, i, j)
    modifies pruned
    ensures Fixed(states, chart) && Kept(p, pruned, chart)
    ensures EnderKept(chart, Has(pruned), j, prev, i, ender)
    ensures Grew(old(Has(pruned)), Has(pruned), j)
    ensures forall m: nat :: m < |pruned| ==> pruned[m].done == old(pruned[m].done)
    ensures forall d :: pruned[j].Merged(d) == old(pruned[j].Merged(d))
  {
    hide *;
    Sizes(p, states, pruned, chart);
    FixedAt(states, chart, j);
    ApartAt(states, pruned, j);
    ListHead(states[j], ender);
    ghost var members := states[j].Merged(ender);
    var k := states[j].sets[ender][2].n;
    ghost var t := 0;
    states[j].MergedDone(ender);
    GrewNone(Has(pruned), j);
    while k >= 0
      invariant if k >= 0 then t < |members| && k == members[t] else t == |members|
      invariant Fixed(states, chart) && Kept(p, pruned, chart) && states[j].Valid() && states[j].Merged(ender) == members
      invariant Grew(old(Has(pruned)), Has(pruned), j)
      invariant forall m: nat :: m < |pruned| ==> pruned[m].done == old(pruned[m].done)
      invariant forall d :: pruned[j].Merged(d) == old(pruned[j].Merged(d))
      invariant forall u :: 0 <= u < t ==> PairKept(chart, Has(pruned), j, prev, i, ender, members[u])
      decreases |members| - t
    {
      states[j].MergedAt(ender, t);
      ghost var a := Has(pruned);
      if k >= i {
        PairUseful(p, chart, prev, ender, s, i, k, j);
        KeepPair(states, pruned, j, prev, ender, i, k, p, chart);
        GrewTwice(old(Has(pruned)), a, Has(pruned), j);
        forall u | 0 <= u < t ensures PairKept(chart, Has(pruned), j, prev, i, ender, members[u]) {
          PairStays(chart, a, Has(pruned), j, prev, i, ender, members[u]);
        }
      }
      PairIs(chart, Has(pruned), j, prev, i, ender, k);
      k := states[j].Follow(ender, k, t);
      t := t + 1;
    }
    PairsAll(chart, Has(pruned), j, prev, i, ender, members);
  }

  lemma ApartAt(states: seq<State>, pruned: seq<State>, j: nat)
    requires Apart(states, pruned) && j < |states|
    ensures states[j] !in pruned
  {
  }

  lemma ListHead(st: State, c: nat)
    requires st.Valid() && c in st.sets
    ensures |st.sets[c]| == st.num + 6 && st.sets[c][2].Num?
    ensures var k, members := st.sets[c][2].n, st.Merged(c); if k >= 0 then |members| > 0 && k == members[0] else |members| == 0
  {
    st.MergedHead(c);
    hide Sets.State.Valid;
  }

  ghost predicate PairKept(chart: seq<set<Item>>, kept: seq<set<Item>>, j: nat, c: nat, i: nat, e: nat, k: nat)
    requires j < |chart| == |kept|
  {
    i <= k <= j && (c, i) in chart[k] ==> (c, i) in kept[k] && (e, k) in kept[j]
  }

  lemma PairIs(chart: seq<set<Item>>, kept: seq<set<Item>>, j: nat, c: nat, i: nat, e: nat, k: nat)
    requires j < |chart| == |kept|
    ensures (i <= k <= j && (c, i) in chart[k] ==> (c, i) in kept[k] && (e, k) in kept[j]) ==> PairKept(chart, kept, j, c, i, e, k)
  {
  }

  lemma PairStays(chart: seq<set<Item>>, a: seq<set<Item>>, b: seq<set<Item>>, j: nat, c: nat, i: nat, e: nat, k: nat)
    requires j < |chart| == |a| && Grew(a, b, j) && PairKept(chart, a, j, c, i, e, k)
    ensures PairKept(chart, b, j, c, i, e, k)
  {
  }

  lemma PairsAll(chart: seq<set<Item>>, kept: seq<set<Item>>, j: nat, c: nat, i: nat, e: nat, members: seq<nat>)
    requires j < |chart| == |kept| && (forall k: nat :: (e, k) in chart[j] ==> k in members)
    requires forall u :: 0 <= u < |members| ==> PairKept(chart, kept, j, c, i, e, members[u])
    ensures EnderKept(chart, kept, j, c, i, e)
  {
  }

  lemma PairUseful(p: Problem, chart: seq<set<Item>>, prev: nat, ender: nat, s: Sym, i: nat, k: nat, j: nat)
    requires InfoOk(p.g, p.nts, p.info) && ChartOk(p, chart, |chart|) && i <= k <= j < |chart|
    requires prev < |p.info| && Before(p.info[prev], s) && ender < |p.info| && Completes(p.info[ender], s)
    requires Useful(p, Goal(p), prev + 1, i, j) && (ender, k) in chart[j]
    ensures (prev, i) in chart[k] ==> Useful(p, Goal(p), prev, i, k) && Useful(p, Goal(p), ender, k, j)
  {
    hide *;
    if (prev, i) in chart[k] {
      ChartSoundAt(p, chart, j);
      ChartSoundAt(p, chart, k);
      SoundAt(p, chart[k], k, prev, i);
      SoundAt(p, chart[j], j, ender, k);
      UsefulParts(p, Goal(p), prev, ender, s, i, k, j);
    }
  }

  /** A configuration after the symbols' own belongs to a rule, so there is a symbol. */
  lemma SymbolsExist(p: Problem, t: Tables, conf: nat)
    requires TablesFor(p, t) && |t.nts| <= conf < |p.info|
    ensures |t.nts| > 0
  {
    assert Fits(p.info, Rules(p.g), conf);
    assert p.info[conf].rule.head in t.nts;
  }

  /** Keeps what an item that is kept was made from. */
  method KeepParts(states: seq<State>, pruned: seq<State>, j: nat, conf: nat, i: nat, t: Tables, ghost p: Problem, ghost chart: seq<set<Item>>)
    requires TablesFor(p, t) && ChartOk(p, chart, |chart|) && conf < |p.info| && j < |chart|
    requires Numbered(states) && Numbered(pruned) && Apart(states, pruned) && Fixed(states, chart) && Kept(p, pruned, chart)
    requires Useful(p, Goal(p), conf, i, j)
    modifies pruned
    ensures Fixed(states, chart) && Kept(p, pruned, chart)
    ensures conf > 0 ==> PartsKept(p, chart, Has(pruned), j, conf - 1, i)
    ensures Grew(old(Has(pruned)), Has(pruned), j)
    ensures forall m: nat :: m < |pruned| ==> pruned[m].done == old(pruned[m].done)
    ensures forall d :: pruned[j].Merged(d) == old(pruned[j].Merged(d))
  {
    hide *;
    Sizes(p, states, pruned, chart);
    StepAt(p, t, conf);
    GrewNone(Has(pruned), j);
    if conf >= |t.nts| {
      SymbolsExist(p, t, conf);
      var prev := conf - 1;
      StepAt(p, t, prev);
      if t.steps[prev] >= 0 {
        KeepEnders(states, pruned, j, prev, i, t.enders[t.steps[prev]], t, p, chart, t.steps[prev]);
        return;
      }
    }
    if conf > 0 {
      NoDotBefore(p, t, conf - 1);
      NothingBefore(p, chart, Has(pruned), j, conf - 1, i);
    }
  }

  lemma NoDotBefore(p: Problem, t: Tables, c: nat)
    requires TablesFor(p, t) && c < |p.info| && (c + 1 < |t.nts| || t.steps[c] < 0)
    ensures forall s :: !Before(p.info[c], s)
  {
    StepAt(p, t, c);
  }

  /** All ways the symbol after prev may end at j. */
  method KeepEnders(states: seq<State>, pruned: seq<State>, j: nat, prev: nat, i: nat, l: seq<nat>,
                    ghost t: Tables, ghost p: Problem, ghost chart: seq<set<Item>>, ghost step: nat)
    requires TablesFor(p, t) && ChartOk(p, chart, |chart|) && prev < |p.info| && j < |chart|
    requires Numbered(states) && Numbered(pruned) && Apart(states, pruned) && Fixed(states, chart) && Kept(p, pruned, chart)
    requires Useful(p, Goal(p), prev + 1, i, j)
    requires step < |t.nts| == |t.enders| && Before(p.info[prev], t.nts[step]) && l == t.enders[step]
    modifies pruned
    ensures Fixed(states, chart) && Kept(p, pruned, chart)
    ensures PartsKept(p, chart, Has(pruned), j, prev, i)
    ensures Grew(old(Has(pruned)), Has(pruned), j)
    ensures forall m: nat :: m < |pruned| ==> pruned[m].done == old(pruned[m].done)
    ensures forall d :: pruned[j].Merged(d) == old(pruned[j].Merged(d))
  {
    hide *;
    Sizes(p, states, pruned, chart);
    TableAt(p, t, step);
    GrewNone(Has(pruned), j);
    ghost var s := t.nts[step];
    var n := 0;
    while n < |l|
      invariant n <= |l| && Fixed(states, chart) && Kept(p, pruned, chart)
      invariant Grew(old(Has(pruned)), Has(pruned), j)
      invariant forall m: nat :: m < |pruned| ==> pruned[m].done == old(pruned[m].done)
      invariant forall d :: pruned[j].Merged(d) == old(pruned[j].Merged(d))
      invariant forall m :: 0 <= m < n ==> EnderKept(chart, Has(pruned), j, prev, i, l[m])
    {
      assert l[n] in l;
      ghost var a := Has(pruned);
      if l[n] in states[j].sets {
        KeepPairs(states, pruned, j, prev, l[n], i, p, chart, s);
        GrewTwice(old(Has(pruned)), a, Has(pruned), j);
        forall m | 0 <= m < n ensures EnderKept(chart, Has(pruned), j, prev, i, l[m]) {
          EnderStays(chart, a, Has(pruned), j, j, prev, i, l[m]);
        }
      } else {
        NoEnder(states, chart, Has(pruned), j, prev, i, l[n]);
      }
      n := n + 1;
    }
    EndersKept(p, chart, Has(pruned), j, prev, i, s, l);
  }

  lemma NoEnder(states: seq<State>, chart: seq<set<Item>>, kept: seq<set<Item>>, j: nat, c: nat, i: nat, e: nat)
    requires Fixed(states, chart) && Numbered(states) && j < |chart| == |kept| && e !in states[j].sets
    ensures EnderKept(chart, kept, j, c, i, e)
  {
    FixedAt(states, chart, j);
    forall k: nat | i <= k <= j ensures (e, k) !in chart[j] {
      states[j].Member(e, k);
    }
    hide Sets.State.Valid;
  }

  /** One configuration off the agenda of the backward pass. */
  method PruneStep(states: seq<State>, pruned: seq<State>, j: nat, t: Tables, ghost p: Problem, ghost chart: seq<set<Item>>) returns (more: bool)
    requires TablesFor(p, t) && ChartOk(p, chart, |chart|) && j < |chart| == |pruned|
    requires Numbered(states) && Numbered(pruned) && Apart(states, pruned) && Fixed(states, chart) && Kept(p, pruned, chart)
    requires StateKept(p, chart, Has(pruned), j, pruned[j].done)
    modifies pruned
    ensures Fixed(states, chart) && Kept(p, pruned, chart)
    ensures StateKept(p, chart, Has(pruned), j, pruned[j].done)
    ensures Grew(old(Has(pruned)), Has(pruned), j)
    ensures forall m: nat :: m < |pruned| && m != j ==> pruned[m].done == old(pruned[m].done)
    ensures if more then old(pruned[j].done) < pruned[j].done else pruned[j].done == old(pruned[j].done) == pruned[j].has
  {
    hide *;
    Sizes(p, states, pruned, chart);
    KeptAt(p, pruned, chart, j);
    ghost var was, before := pruned[j].done, Has(pruned);
    var conf, head, start := Take(states, pruned, j, p, chart);
    SameHas(before, Has(pruned));
    GrewNone(before, j);
    if conf < 0 {
      return false;
    }
    more := true;
    KeptAt(p, pruned, chart, j);
    pruned[j].MergedDone(conf);
    ghost var members, done := pruned[j].Merged(conf), pruned[j].done;
    assert members[start] in members;
    ChartSoundAt(p, chart, j);
    SoundAt(p, chart[j], j, conf, members[start]);
    NewlyDone(was, done, conf, members, start);
    ghost var u := start;
    var i := head;
    while i >= 0
      invariant start <= u <= |members|
      invariant if i >= 0 then u < |members| && i == members[u] else u == |members|
      invariant Fixed(states, chart) && Kept(p, pruned, chart) && pruned[j].Merged(conf) == members && pruned[j].done == done
      invariant Grew(before, Has(pruned), j) && StateKept(p, chart, Has(pruned), j, was)
      invariant forall m: nat :: m < |pruned| && m != j ==> pruned[m].done == old(pruned[m].done)
      invariant forall v :: start <= v < u && conf > 0 ==> PartsKept(p, chart, Has(pruned), j, conf - 1, members[v])
      decreases |members| - u
    {
      ghost var a := Has(pruned);
      KeptAt(p, pruned, chart, j);
      pruned[j].MergedDone(conf);
      assert members[u] in members;
      UsefulAt(p, pruned[j].has, j, conf, i);
      KeepParts(states, pruned, j, conf, i, t, p, chart);
      GrewTwice(before, a, Has(pruned), j);
      StateStays(p, chart, a, Has(pruned), j, j, was);
      forall v | start <= v < u && conf > 0 ensures PartsKept(p, chart, Has(pruned), j, conf - 1, members[v]) {
        PartsStay(p, chart, a, Has(pruned), j, j, conf - 1, members[v]);
      }
      KeptAt(p, pruned, chart, j);
      i := pruned[j].Follow(conf, i, u);
      u := u + 1;
    }
    forall i: nat | (conf, i) in done && (conf, i) !in was && conf > 0 ensures PartsKept(p, chart, Has(pruned), j, conf - 1, i) {
      InPairs(conf, members[start..], i);
    }
    StateKeptMore(p, chart, Has(pruned), j, was, done, conf);
  }

  lemma SameHas(a: seq<set<Item>>, b: seq<set<Item>>)
    requires |a| == |b| && forall m :: 0 <= m < |a| ==> a[m] == b[m]
    ensures a == b
  {
  }

  lemma ChartSoundAt(p: Problem, chart: seq<set<Item>>, j: nat)
    requires ChartOk(p, chart, |chart|) && j < |chart|
    ensures Sound(p, chart[j], j)
  {
  }

  /** Takes a configuration off the agenda of one state; the others stay. */
  method Take(states: seq<State>, pruned: seq<State>, j: nat, ghost p: Problem, ghost chart: seq<set<Item>>) returns (conf: int, head: int, ghost start: nat)
    requires Numbered(states) && Numbered(pruned) && Apart(states, pruned) && Fixed(states, chart) && Kept(p, pruned, chart)
    requires j < |pruned|
    modifies pruned
    ensures Fixed(states, chart) && Kept(p, pruned, chart)
    ensures forall m: nat :: m < |pruned| ==> pruned[m].has == old(pruned[m].has)
    ensures conf < 0 ==> pruned[j].done == old(pruned[j].done) == pruned[j].has
    ensures forall m: nat :: m < |pruned| && m != j ==> pruned[m].done == old(pruned[m].done)
    ensures conf >= 0 ==> start < |pruned[j].Merged(conf)| && head == pruned[j].Merged(conf)[start]
    ensures conf >= 0 ==> pruned[j].done == old(pruned[j].done) + Sets.PairUp(conf, pruned[j].Merged(conf)[start..])
    ensures conf >= 0 ==> pruned[j].done != old(pruned[j].done)
  {
    hide Sets.State.Valid, Sets.State.Merged, Sets.PairUp, UsefulSet, Used;
    KeptAt(p, pruned, chart, j);
    UsedIs(pruned[j]);
    assert pruned[j] in pruned && pruned[j] !in states;
    conf, head, start := pruned[j].TakeNext();
    UsedIs(pruned[j]);
    forall m: nat | m < |pruned| ensures KeptIn(p, pruned[m], chart, m) {
      assert m == j || pruned[m] != pruned[j];
    }
  }

  /** Everything that the items kept in state j were made from, transitively within the state. */
  method PruneState(states: seq<State>, pruned: seq<State>, j: nat, t: Tables, ghost p: Problem, ghost chart: seq<set<Item>>)
    requires TablesFor(p, t) && ChartOk(p, chart, |chart|) && j < |chart| == |pruned|
    requires Numbered(states) && Numbered(pruned) && Apart(states, pruned) && Fixed(states, chart) && Kept(p, pruned, chart)
    requires pruned[j].done == {} && KeptFrom(p, chart, Has(pruned), j + 1)
    modifies pruned
    ensures Fixed(states, chart) && Kept(p, pruned, chart)
    ensures KeptFrom(p, chart, Has(pruned), j) && Grew(old(Has(pruned)), Has(pruned), j)
    ensures forall m: nat :: m < |pruned| && m != j ==> pruned[m].done == old(pruned[m].done)
  {
    hide *;
    ghost var first := Has(pruned);
    NoneKept(p, chart, first, j);
    GrewNone(first, j);
    var more := true;
    while more
      invariant Fixed(states, chart) && Kept(p, pruned, chart)
      invariant Grew(first, Has(pruned), j) && StateKept(p, chart, Has(pruned), j, pruned[j].done)
      invariant forall m: nat :: m < |pruned| && m != j ==> pruned[m].done == old(pruned[m].done)
      invariant !more ==> pruned[j].done == pruned[j].has
      decreases chart[j] - pruned[j].done, more
    {
      ghost var before, a := pruned[j].done, Has(pruned);
      more := PruneStep(states, pruned, j, t, p, chart);
      GrewTwice(first, a, Has(pruned), j);
      KeptAt(p, pruned, chart, j);
      pruned[j].MergedDone(0);
      if more {
        Shrinks(chart[j], before, pruned[j].done);
      }
    }
    KeptStays(p, chart, first, Has(pruned), j);
  }

  /** The backward pass: it keeps the complete goals, what they were made from, and nothing else. */
  method Prune(states: seq<State>, t: Tables, ghost p: Problem, ghost chart: seq<set<Item>>) returns (pruned: seq<State>)
    requires TablesFor(p, t) && ChartOk(p, chart, |chart|) && |chart| == |p.toks| + 1
    requires Numbered(states) && Fixed(states, chart)
    ensures fresh(pruned) && Fixed(states, chart) && Kept(p, pruned, chart) && Numbered(pruned)
    ensures KeptFrom(p, chart, Has(pruned), 0)
    ensures |Has(pruned)| == |p.toks| + 1 && (|t.nts| > 0 ==> GoalsKept(p, chart, Has(pruned), t.nts[0]))
  {
    hide *;
    TablesParts(p, t);
    FixedSize(states, chart);
    pruned := MakeStates(|states| - 1);
    BlankKept(p, pruned, chart);
    ghost var n := |p.toks|;
    var goal: seq<nat> := [];
    if |t.nts| > 0 {
      goal := GoalEnders(t, p);
      GoalIs(p);
    }
    ApartFresh(states, pruned);
    var m := 0;
    while m < |goal|
      invariant m <= |goal| && Fixed(states, chart) && Kept(p, pruned, chart)
      invariant forall u: nat :: u < |pruned| ==> pruned[u].done == {}
      invariant forall u :: 0 <= u < m && (goal[u], 0) in chart[n] ==> (goal[u], 0) in Has(pruned)[n]
    {
      assert goal[m] in goal;
      GoalItem(p, chart, goal[m]);
      ghost var a := Has(pruned);
      var found := KeepOne(states, pruned, |states| - 1, n, goal[m], 0, p, chart);
      GrewAt(a, Has(pruned), n, n);
      m := m + 1;
    }
    NoStates(p, chart, Has(pruned));
    var j := |states| - 1;
    while j >= 0
      invariant -1 <= j < |states| && Fixed(states, chart) && Kept(p, pruned, chart)
      invariant forall u: nat :: u < |pruned| && u <= j ==> pruned[u].done == {}
      invariant KeptFrom(p, chart, Has(pruned), j + 1)
      invariant forall u :: 0 <= u < |goal| && (goal[u], 0) in chart[n] ==> (goal[u], 0) in Has(pruned)[n]
    {
      ghost var a := Has(pruned);
      PruneState(states, pruned, j, t, p, chart);
      GrewAt(a, Has(pruned), j, n);
      j := j - 1;
    }
    if |t.nts| > 0 {
      GoalsAll(p, chart, Has(pruned), t.nts[0], goal);
    }
  }

  lemma GoalIs(p: Problem)
    requires |p.nts| > 0
    ensures Goal(p) == p.nts[0]
  {
  }

  lemma GoalItem(p: Problem, chart: seq<set<Item>>, e: nat)
    requires InfoOk(p.g, p.nts, p.info) && ChartOk(p, chart, |chart|) && |chart| == |p.toks| + 1
    requires e < |p.info| && Completes(p.info[e], Goal(p))
    ensures (e, 0) in chart[|p.toks|] ==> Useful(p, Goal(p), e, 0, |p.toks|)
  {
    hide *;
    if (e, 0) in chart[|p.toks|] {
      ChartSoundAt(p, chart, |p.toks|);
      SoundAt(p, chart[|p.toks|], |p.toks|, e, 0);
      GoalUseful(p, Goal(p), e);
    }
  }

  lemma NoStates(p: Problem, chart: seq<set<Item>>, kept: seq<set<Item>>)
    requires |kept| == |chart|
    ensures KeptFrom(p, chart, kept, |chart|)
  {
  }

  lemma GoalsAll(p: Problem, chart: seq<set<Item>>, kept: seq<set<Item>>, goal: Sym, l: seq<nat>)
    requires |chart| == |kept| == |p.toks| + 1 && forall e: nat :: e in l <==> e < |p.info| && Completes(p.info[e], goal)
    requires forall u :: 0 <= u < |l| && (l[u], 0) in chart[|p.toks|] ==> (l[u], 0) in kept[|p.toks|]
    ensures GoalsKept(p, chart, kept, goal)
  {
    hide Completes;
  }

  lemma ApartFresh(states: seq<State>, pruned: seq<State>)
    requires forall x :: x in pruned ==> x !in states
    ensures Apart(states, pruned)
  {
  }

  method GoalEnders(t: Tables, ghost p: Problem) returns (l: seq<nat>)
    requires TablesFor(p, t) && |t.nts| > 0
    ensures forall e: nat :: e in l <==> e < |p.info| && Completes(p.info[e], t.nts[0])
  {
    TableAt(p, t, 0);
    l := t.enders[0];
  }

  lemma FixedSize(states: seq<State>, chart: seq<set<Item>>)
    requires Fixed(states, chart)
    ensures |states| == |chart|
  {
  }

  lemma BlankKept(p: Problem, pruned: seq<State>, chart: seq<set<Item>>)
    requires Blank(pruned) && |pruned| == |chart|
    ensures Kept(p, pruned, chart) && forall k: nat :: k < |pruned| ==> pruned[k].done == {}
  {
  }

  // ----- the parse and the questions asked of it -----

  /** The configurations that complete a symbol, by its number. */
  method EndersOf(nt: Sym, t: Tables, ghost p: Problem) returns (r: Option<seq<nat>>)
    requires TablesFor(p, t)
    ensures r.None? <==> nt !in t.nts
    ensures r.Some? ==> forall e: nat :: e in r.value <==> e < |p.info| && Completes(p.info[e], nt)
  {
    var s := Ind(nt, t.nts);
    if s.None? {
      return None;
    }
    TableAt(p, t, s.value);
    r := Some(t.enders[s.value]);
  }

  /** `conf_set[k] !== false`; past the end the vector gives a value that is not false. */
  predicate NotFalse(cells: seq<Sets.Cell>, k: nat) {
    k >= |cells| || cells[k] != Sets.False
  }

  /**
    Whether the symbol was parsed from i to j.  The answer is about the kept items only
    when i <= j; past its own position a set has no slots, and its mere existence says yes.
  */
  method IsParsed(nt: Sym, i: nat, j: nat, t: Tables, pruned: seq<State>, ghost p: Problem, ghost chart: seq<set<Item>>) returns (r: bool)
    requires TablesFor(p, t) && Numbered(pruned) && Kept(p, pruned, chart) && j < |pruned|
    ensures i <= j ==> (r <==> nt in t.nts && exists e: nat :: e < |p.info| && Completes(p.info[e], nt) && (e, i) in pruned[j].has)
    ensures i > j ==> (r <==> nt in t.nts && exists e: nat :: e < |p.info| && Completes(p.info[e], nt) && e in pruned[j].sets)
  {
    hide *;
    KeptAt(p, pruned, chart, j);
    NumberedAt(pruned, j);
    var st := pruned[j];
    var l := EndersOf(nt, t, p);
    if l.None? {
      return false;
    }
    var n := 0;
    while n < |l.value|
      invariant n <= |l.value|
      invariant forall m :: 0 <= m < n && i <= j ==> (l.value[m], i) !in st.has
      invariant forall m :: 0 <= m < n && i > j ==> l.value[m] !in st.sets
    {
      var e := l.value[n];
      assert e in l.value;
      Slot(st, e, i);
      if e in st.sets && NotFalse(st.sets[e], i + 5) {
        return true;
      }
      n := n + 1;
    }
    r := false;
  }

  lemma NumberedAt(states: seq<State>, j: nat)
    requires Numbered(states) && j < |states|
    ensures states[j].num == j
  {
  }

  lemma Slot(st: State, e: nat, i: nat)
    requires st.Valid()
    ensures e in st.sets && i <= st.num ==> (NotFalse(st.sets[e], i + 5) <==> (e, i) in st.has)
    ensures e in st.sets && i > st.num ==> NotFalse(st.sets[e], i + 5)
    ensures e !in st.sets && i <= st.num ==> (e, i) !in st.has
  {
    if i <= st.num {
      st.Member(e, i);
    } else if e in st.sets {
      st.MergedHead(e);
    }
  }

  /** The whole parse: tables, chart, backward pass. */
  method Parse(g: Grammar, toks: seq<Token>) returns (t: Tables, pruned: seq<State>, ghost p: Problem, ghost chart: seq<set<Item>>)
    ensures TablesFor(p, t) && p.g == g && p.toks == toks && |chart| == |toks| + 1 && ChartOk(p, chart, |chart|)
    ensures if |g| > 0 then |t.nts| > 0 && t.nts[0] == g[0].head else |t.nts| == 0
    ensures |pruned| == |toks| + 1 && Numbered(pruned) && Kept(p, pruned, chart)
    ensures KeptFrom(p, chart, Has(pruned), 0) && (|t.nts| > 0 ==> GoalsKept(p, chart, Has(pruned), t.nts[0]))
  {
    ghost var info;
    t, info := MakeTables(g);
    p := Problem(g, toks, t.nts, info);
    hide TablesOk;
    TablesParts(p, t);
    hide *;
    var states := MakeStates(|toks|);
    chart := FillChart(states, t, toks, p);
    pruned := Prune(states, t, p, chart);
    KeptSize(p, pruned, chart);
  }

  lemma KeptSize(p: Problem, pruned: seq<State>, chart: seq<set<Item>>)
    requires Kept(p, pruned, chart)
    ensures |pruned| == |chart|
  {
  }

  /**
    For positions in order, yes exactly for the constituents of the parses of the whole
    input.  A start behind the end is answered yes exactly when the symbol ends some
    constituent there; so the answer is right unless this is the case.
  */
  method Parsed(g: Grammar, toks: seq<Token>, nt: Sym, i: nat, j: nat) returns (r: bool)
    requires j <= |toks|
    ensures i <= j ==> (r <==> Constituent(g, toks, Span(nt, i, j)))
    ensures i > j ==> (r <==> EndsAt(g, toks, nt, j))
    ensures (r <==> Constituent(g, toks, Span(nt, i, j))) <==> i <= j || !EndsAt(g, toks, nt, j)
  {
    hide *;
    var t, pruned, p, chart := Parse(g, toks);
    r := IsParsed(nt, i, j, t, pruned, p, chart);
    TablesParts(p, t);
    KeptAt(p, pruned, chart, j);
    PrunedIsSo(p, chart, Has(pruned));
    ghost var l, sets := pruned[j].has, pruned[j].sets.Keys;
    ConstituentForwards(g, toks, Span(nt, i, j));
    if i <= j {
      KeptAnswer(p, chart, Has(pruned), nt, i, j);
    } else {
      SetsAnswer(pruned[j], sets);
      NumberedAt(pruned, j);
      EndsAnswer(p, chart, Has(pruned), nt, j, sets);
    }
  }

  lemma KeptAnswer(p: Problem, chart: seq<set<Item>>, kept: seq<set<Item>>, nt: Sym, i: nat, j: nat)
    requires Pruned(p, chart, kept) && i <= j <= |p.toks| && |kept| == |p.toks| + 1 && UsefulSet(p, kept[j], j)
    requires |p.g| == 0 ==> |p.nts| == 0
    requires |p.g| > 0 ==> |p.nts| > 0 && p.nts[0] == p.g[0].head && |chart| == |kept| && GoalsKept(p, chart, kept, p.nts[0])
    ensures (nt in p.nts && exists e: nat :: e < |p.info| && Completes(p.info[e], nt) && (e, i) in kept[j]) <==>
            Constituent(p.g, p.toks, Span(nt, i, j))
  {
    ConstituentIs(p.g, p.toks, Span(nt, i, j));
    PrunedIs(p, chart, kept);
    hide *;
    if |p.g| > 0 {
      KeptExactly(p, chart, kept, nt, i, j);
      if e: nat :| e < |p.info| && Completes(p.info[e], nt) && (e, i) in kept[j] {
        CompletesKnown(p, e, nt);
      }
    }
  }

  lemma SetsAnswer(st: State, sets: set<nat>)
    requires st.Valid() && Used(st) && sets == st.sets.Keys
    ensures forall e: nat :: e in sets <==> exists k: nat :: k <= st.num && (e, k) in st.has
  {
    forall e: nat | e in sets ensures exists k: nat :: k <= st.num && (e, k) in st.has {
      var k: nat :| (e, k) in st.has;
      st.HasBounds(e, k);
    }
    forall e: nat, k: nat | (e, k) in st.has ensures e in sets {
      st.HasBounds(e, k);
    }
    hide Sets.State.Valid;
  }

  lemma EndsAnswer(p: Problem, chart: seq<set<Item>>, kept: seq<set<Item>>, nt: Sym, j: nat, sets: set<nat>)
    requires Pruned(p, chart, kept) && j <= |p.toks| && |kept| == |p.toks| + 1 && UsefulSet(p, kept[j], j)
    requires |p.g| == 0 ==> |p.nts| == 0
    requires |p.g| > 0 ==> |p.nts| > 0 && p.nts[0] == p.g[0].head && |chart| == |kept| && GoalsKept(p, chart, kept, p.nts[0])
    requires forall e: nat :: e in sets <==> exists k: nat :: k <= j && (e, k) in kept[j]
    ensures (nt in p.nts && exists e: nat :: e < |p.info| && Completes(p.info[e], nt) && e in sets) <==> EndsAt(p.g, p.toks, nt, j)
  {
    hide *;
    EndsAtIs(p.g, p.toks, nt, j);
    if e: nat :| nt in p.nts && e < |p.info| && Completes(p.info[e], nt) && e in sets {
      var k: nat :| k <= j && (e, k) in kept[j];
      KeptAnswer(p, chart, kept, nt, k, j);
      assert Constituent(p.g, p.toks, Span(nt, k, j));
    }
    if k: nat :| k <= j && Constituent(p.g, p.toks, Span(nt, k, j)) {
      KeptAnswer(p, chart, kept, nt, k, j);
      var e: nat :| e < |p.info| && Completes(p.info[e], nt) && (e, k) in kept[j];
      assert e in sets;
    }
  }

  lemma PrunedIsSo(p: Problem, chart: seq<set<Item>>, kept: seq<set<Item>>)
    requires SymbolsOk(p.g, p.nts) && InfoOk(p.g, p.nts, p.info) && |chart| == |kept| == |p.toks| + 1 && ChartOk(p, chart, |chart|)
    requires KeptFrom(p, chart, kept, 0)
    ensures Pruned(p, chart, kept)
  {
  }

  /** Recognition is exact: the goal is found over the whole input iff the grammar derives the input. */
  method Recognise(g: Grammar, toks: seq<Token>) returns (accepted: bool)
    ensures accepted <==> |g| > 0 && Derives(g, toks, g[0].head, 0, |toks|)
  {
    if |g| == 0 {
      return false;
    }
    accepted := Parsed(g, toks, g[0].head, 0, |toks|);
    ConstituentIs(g, toks, Span(g[0].head, 0, |toks|));
    hide *;
    WholeParse(g, toks, g[0].head);
  }
}
