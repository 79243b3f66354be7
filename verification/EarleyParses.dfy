/**
  The constituents of parses of a whole input, and why the backward pass leaves
  exactly them: an item is useful when its rule can be finished to a constituent of
  some parse.
*/
module EarleyParses {
  import opened EarleyGrammars
  import opened EarleyTables
  import opened EarleyCharts

  datatype Span = Span(sym: Sym, from: nat, to: nat)

  ghost predicate Tops(g: Grammar, toks: seq<Token>, t: Tree, x: Span) {
    Derivation(g, toks, t, x.sym, x.from, x.to)
  }

  /** The tree derives x, and y somewhere within. */
  ghost predicate Part(g: Grammar, toks: seq<Token>, t: Tree, x: Span, y: Span)
    decreases t
  {
    Tops(g, toks, t, x) && (x == y || (t.Node? && Parts(g, toks, t.kids, t.rule.body, x.from, x.to, y)))
  }

  ghost predicate Parts(g: Grammar, toks: seq<Token>, f: Forest, ss: seq<Sym>, i: nat, j: nat, y: Span)
    decreases f
  {
    f.Snoc? && |ss| > 0 && exists k: nat :: i <= k <= j && PartsAt(g, toks, f, ss, i, k, j, y)
  }

  ghost predicate PartsAt(g: Grammar, toks: seq<Token>, f: Forest, ss: seq<Sym>, i: nat, k: nat, j: nat, y: Span)
    requires f.Snoc? && |ss| > 0
    decreases f, 0
  {
    var first, end := ss[..|ss| - 1], Span(ss[|ss| - 1], k, j);
    Derivations(g, toks, f.init, first, i, k) && Tops(g, toks, f.last, end) &&
    (Parts(g, toks, f.init, first, i, k, y) || Part(g, toks, f.last, end, y))
  }

  /** The whole input has a parse with this constituent. */
  ghost predicate InParse(g: Grammar, toks: seq<Token>, goal: Sym, y: Span) {
    exists t :: Part(g, toks, t, Span(goal, 0, |toks|), y)
  }

  // ----- trees can be put together -----

  lemma SnocParts(g: Grammar, toks: seq<Token>, init: Forest, last: Tree, ss: seq<Sym>, i: nat, k: nat, j: nat, y: Span)
    requires |ss| > 0 && i <= k <= j && Derivations(g, toks, init, ss[..|ss| - 1], i, k)
    requires var end := Span(ss[|ss| - 1], k, j);
             Tops(g, toks, last, end) && (Parts(g, toks, init, ss[..|ss| - 1], i, k, y) || Part(g, toks, last, end, y))
    ensures Derivations(g, toks, Snoc(init, last), ss, i, j) && Parts(g, toks, Snoc(init, last), ss, i, j, y)
  {
    assert PartsAt(g, toks, Snoc(init, last), ss, i, k, j, y);
  }

  lemma NodePart(g: Grammar, toks: seq<Token>, r: Rule, f: Forest, i: nat, j: nat, y: Span)
    requires r in Rules(g) && Derivations(g, toks, f, r.body, i, j) && Parts(g, toks, f, r.body, i, j, y)
    ensures Part(g, toks, Node(r, f), Span(r.head, i, j), y)
  {
  }

  /** A constituent can be replaced by any tree for the same symbol and tokens. */
  lemma {:induction false} Replace(g: Grammar, toks: seq<Token>, t: Tree, x: Span, y: Span, t2: Tree, z: Span) returns (t3: Tree)
    requires Part(g, toks, t, x, y) && Part(g, toks, t2, y, z)
    ensures Part(g, toks, t3, x, z)
    decreases t
  {
    if x == y {
      return t2;
    }
    var f := ReplaceIn(g, toks, t.kids, t.rule.body, x.from, x.to, y, t2, z);
    NodePart(g, toks, t.rule, f, x.from, x.to, z);
    t3 := Node(t.rule, f);
  }

  lemma {:induction false} ReplaceIn(g: Grammar, toks: seq<Token>, f: Forest, ss: seq<Sym>, i: nat, j: nat, y: Span, t2: Tree, z: Span)
    returns (f3: Forest)
    requires Parts(g, toks, f, ss, i, j, y) && Part(g, toks, t2, y, z)
    ensures Parts(g, toks, f3, ss, i, j, z) && Derivations(g, toks, f3, ss, i, j)
    decreases f
  {
    var k: nat :| i <= k <= j && PartsAt(g, toks, f, ss, i, k, j, y);
    var first, end := ss[..|ss| - 1], Span(ss[|ss| - 1], k, j);
    if Parts(g, toks, f.init, first, i, k, y) {
      var f1 := ReplaceIn(g, toks, f.init, first, i, k, y, t2, z);
      f3 := Snoc(f1, f.last);
      SnocParts(g, toks, f1, f.last, ss, i, k, j, z);
    } else {
      var t1 := Replace(g, toks, f.last, end, y, t2, z);
      f3 := Snoc(f.init, t1);
      SnocParts(g, toks, f.init, t1, ss, i, k, j, z);
    }
  }

  /** More trees on the right. */
  lemma {:induction false} Append(g: Grammar, toks: seq<Token>, f: Forest, ss: seq<Sym>, i: nat, k: nat, y: Span, h: Forest, rest: seq<Sym>, j: nat)
    returns (f2: Forest)
    requires Parts(g, toks, f, ss, i, k, y) && Derivations(g, toks, f, ss, i, k)
    requires i <= k <= j && Derivations(g, toks, h, rest, k, j)
    ensures Parts(g, toks, f2, ss + rest, i, j, y) && Derivations(g, toks, f2, ss + rest, i, j)
    decreases h
  {
    if h.Nil? {
      assert ss + rest == ss;
      return f;
    }
    var first, end := rest[..|rest| - 1], rest[|rest| - 1];
    var n: nat :| k <= n <= j && Derivations(g, toks, h.init, first, k, n) && Derivation(g, toks, h.last, end, n, j);
    var f1 := Append(g, toks, f, ss, i, k, y, h.init, first, n);
    assert (ss + rest)[..|ss + rest| - 1] == ss + first;
    assert Tops(g, toks, h.last, Span(end, n, j));
    SnocParts(g, toks, f1, h.last, ss + rest, i, n, j, y);
    f2 := Snoc(f1, h.last);
  }

  /** Trees for all symbols of a rule, with a given one for symbol d. */
  lemma Fill(g: Grammar, toks: seq<Token>, r: Rule, d: nat, t: Tree, i: nat, k: nat, j: nat, m: nat) returns (node: Tree)
    requires r in Rules(g) && d < |r.body| && i <= k <= j <= m && Tops(g, toks, t, Span(r.body[d], k, j))
    requires DerivesAll(g, toks, r.body[..d], i, k) && DerivesAll(g, toks, r.body[d + 1..], j, m)
    ensures Part(g, toks, node, Span(r.head, i, m), Span(r.body[d], k, j))
  {
    var y := Span(r.body[d], k, j);
    var f :| Derivations(g, toks, f, r.body[..d], i, k);
    var h :| Derivations(g, toks, h, r.body[d + 1..], j, m);
    assert r.body[..d + 1][..d] == r.body[..d];
    SnocParts(g, toks, f, t, r.body[..d + 1], i, k, j, y);
    var all := Append(g, toks, Snoc(f, t), r.body[..d + 1], i, j, y, h, r.body[d + 1..], m);
    assert r.body[..d + 1] + r.body[d + 1..] == r.body;
    NodePart(g, toks, r, all, i, m, y);
    node := Node(r, all);
  }

  /** One more symbol on the left. */
  lemma DerivesFirst(g: Grammar, toks: seq<Token>, s: Sym, rest: seq<Sym>, k: nat, j: nat, m: nat)
    requires k <= j <= m && Derives(g, toks, s, k, j) && DerivesAll(g, toks, rest, j, m)
    ensures DerivesAll(g, toks, [s] + rest, k, m)
  {
    var t :| Derivation(g, toks, t, s, k, j);
    var h :| Derivations(g, toks, h, rest, j, m);
    assert Derivations(g, toks, Nil, [s][..0], k, k);
    assert Tops(g, toks, t, Span(s, k, j));
    SnocParts(g, toks, Nil, t, [s], k, k, j, Span(s, k, j));
    var f := Append(g, toks, Snoc(Nil, t), [s], k, j, Span(s, k, j), h, rest, m);
  }

  /** What is in a parse is a derivation. */
  lemma {:induction false} PartDerives(g: Grammar, toks: seq<Token>, t: Tree, x: Span, y: Span)
    requires Part(g, toks, t, x, y)
    ensures Derives(g, toks, y.sym, y.from, y.to)
    decreases t
  {
    if x != y {
      PartsDerive(g, toks, t.kids, t.rule.body, x.from, x.to, y);
    }
  }

  lemma {:induction false} PartsDerive(g: Grammar, toks: seq<Token>, f: Forest, ss: seq<Sym>, i: nat, j: nat, y: Span)
    requires Parts(g, toks, f, ss, i, j, y)
    ensures Derives(g, toks, y.sym, y.from, y.to)
    decreases f
  {
    var k: nat :| i <= k <= j && PartsAt(g, toks, f, ss, i, k, j, y);
    if Parts(g, toks, f.init, ss[..|ss| - 1], i, k, y) {
      PartsDerive(g, toks, f.init, ss[..|ss| - 1], i, k, y);
    } else {
      PartDerives(g, toks, f.last, Span(ss[|ss| - 1], k, j), y);
    }
  }

  // ----- useful items -----

  ghost predicate RestTo(p: Problem, goal: Sym, r: Rule, d: nat, i: nat, j: nat, m: nat)
    requires d <= |r.body|
  {
    j <= m && DerivesAll(p.g, p.toks, r.body[d..], j, m) && InParse(p.g, p.toks, goal, Span(r.head, i, m))
  }

  /** The rule can be finished so that it is part of a parse. */
  ghost predicate Useful(p: Problem, goal: Sym, c: nat, i: nat, j: nat) {
    && c < |p.info|
    && match p.info[c]
       case Seen(s) => InParse(p.g, p.toks, goal, Span(s, i, j))
       case Dotted(r, d) => d <= |r.body| && exists m: nat :: RestTo(p, goal, r, d, i, j, m)
  }

  lemma UsefulEnder(p: Problem, goal: Sym, e: nat, s: Sym, k: nat, j: nat)
    requires e < |p.info| && Completes(p.info[e], s) && InParse(p.g, p.toks, goal, Span(s, k, j))
    ensures Useful(p, goal, e, k, j)
  {
    if p.info[e].Dotted? {
      var r := p.info[e].rule;
      assert r.body[|r.body|..] == [];
      DerivesNothing(p.g, p.toks, j);
      assert RestTo(p, goal, r, |r.body|, k, j, j);
    }
  }

  lemma EnderUseful(p: Problem, goal: Sym, e: nat, s: Sym, k: nat, j: nat)
    requires Useful(p, goal, e, k, j) && Completes(p.info[e], s)
    ensures InParse(p.g, p.toks, goal, Span(s, k, j))
  {
    if p.info[e].Dotted? {
      var r := p.info[e].rule;
      var m: nat :| RestTo(p, goal, r, |r.body|, k, j, m);
      var f :| Derivations(p.g, p.toks, f, r.body[|r.body|..], j, m);
      assert r.body[|r.body|..] == [];
    }
  }

  /** The goal over the whole input is a parse. */
  lemma GoalUseful(p: Problem, goal: Sym, e: nat)
    requires InfoOk(p.g, p.nts, p.info) && e < |p.info| && Completes(p.info[e], goal) && ItemSound(p, e, 0, |p.toks|)
    ensures Useful(p, goal, e, 0, |p.toks|)
  {
    CompleteDerives(p, e, goal, 0, |p.toks|);
    var t :| Derivation(p.g, p.toks, t, goal, 0, |p.toks|);
    assert Part(p.g, p.toks, t, Span(goal, 0, |p.toks|), Span(goal, 0, |p.toks|));
    UsefulEnder(p, goal, e, goal, 0, |p.toks|);
  }

  /** A symbol that a useful item's dot has just passed is in a parse. */
  lemma SymbolInParse(p: Problem, goal: Sym, r: Rule, d: nat, i: nat, k: nat, j: nat, m: nat)
    requires r in Rules(p.g) && d < |r.body| && i <= k <= j && DerivesAll(p.g, p.toks, r.body[..d], i, k)
    requires Derives(p.g, p.toks, r.body[d], k, j) && RestTo(p, goal, r, d + 1, i, j, m)
    ensures InParse(p.g, p.toks, goal, Span(r.body[d], k, j))
  {
    var s := r.body[d];
    var t :| Derivation(p.g, p.toks, t, s, k, j);
    assert Tops(p.g, p.toks, t, Span(s, k, j));
    var node := Fill(p.g, p.toks, r, d, t, i, k, j, m);
    var top :| Part(p.g, p.toks, top, Span(goal, 0, |p.toks|), Span(r.head, i, m));
    var all := Replace(p.g, p.toks, top, Span(goal, 0, |p.toks|), Span(r.head, i, m), node, Span(s, k, j));
  }

  /** What a useful item was made from is useful. */
  lemma UsefulParts(p: Problem, goal: Sym, c: nat, e: nat, s: Sym, i: nat, k: nat, j: nat)
    requires InfoOk(p.g, p.nts, p.info) && Useful(p, goal, c + 1, i, j)
    requires ItemSound(p, c, i, k) && ItemSound(p, e, k, j) && Before(p.info[c], s) && Completes(p.info[e], s)
    ensures Useful(p, goal, c, i, k) && Useful(p, goal, e, k, j)
  {
    var r, d := p.info[c].rule, p.info[c].dot;
    assert c >= |p.nts|;
    assert Fits(p.info, Rules(p.g), c);
    var m: nat :| RestTo(p, goal, r, d + 1, i, j, m);
    CompleteDerives(p, e, s, k, j);
    hide Derives, DerivesAll, InParse;
    SymbolInParse(p, goal, r, d, i, k, j, m);
    UsefulEnder(p, goal, e, s, k, j);
    DerivesFirst(p.g, p.toks, s, r.body[d + 1..], k, j, m);
    assert r.body[d..] == [s] + r.body[d + 1..];
    assert RestTo(p, goal, r, d, i, k, m);
  }

  function Goal(p: Problem): Sym {
    if |p.nts| > 0 then p.nts[0] else ""
  }

  // ----- what the backward pass keeps -----

  /** If the dot of (c, i) moved over a symbol that ends at j, the items it came from are kept. */
  ghost predicate PartsKept(p: Problem, chart: seq<set<Item>>, kept: seq<set<Item>>, j: nat, c: nat, i: nat)
    requires j < |chart| == |kept|
  {
    forall e: nat, k: nat, s ::
      c < |p.info| && e < |p.info| && i <= k <= j && Before(p.info[c], s) && Completes(p.info[e], s) ==>
        (e, k) in chart[j] && (c, i) in chart[k] ==> (c, i) in kept[k] && (e, k) in kept[j]
  }

  ghost predicate StateKept(p: Problem, chart: seq<set<Item>>, kept: seq<set<Item>>, j: nat, done: set<Item>)
    requires j < |chart| == |kept|
  {
    forall c: nat, i: nat :: (c + 1, i) in done ==> PartsKept(p, chart, kept, j, c, i)
  }

  /** The kept items of the finished states, from state n on. */
  ghost predicate KeptFrom(p: Problem, chart: seq<set<Item>>, kept: seq<set<Item>>, n: int) {
    |chart| == |kept| && forall j: nat :: n <= j < |chart| ==> StateKept(p, chart, kept, j, kept[j])
  }

  ghost predicate GoalsKept(p: Problem, chart: seq<set<Item>>, kept: seq<set<Item>>, goal: Sym)
    requires |chart| == |kept| == |p.toks| + 1
  {
    forall e: nat :: e < |p.info| && Completes(p.info[e], goal) && (e, 0) in chart[|p.toks|] ==> (e, 0) in kept[|p.toks|]
  }

  ghost predicate UsefulSet(p: Problem, has: set<Item>, j: nat) {
    forall c: nat, i: nat :: (c, i) in has ==> Useful(p, Goal(p), c, i, j)
  }

  lemma UsefulAt(p: Problem, has: set<Item>, j: nat, c: nat, i: nat)
    requires UsefulSet(p, has, j) && (c, i) in has
    ensures Useful(p, Goal(p), c, i, j)
  {
  }

  lemma UsefulMore(p: Problem, has: set<Item>, j: nat, c: nat, i: nat)
    requires UsefulSet(p, has, j) && Useful(p, Goal(p), c, i, j)
    ensures UsefulSet(p, has + {(c, i)}, j)
  {
    hide Useful;
  }

  /** The kept sets grew, those after state j not at all. */
  ghost predicate Grew(before: seq<set<Item>>, after: seq<set<Item>>, j: nat) {
    |before| == |after| && forall m: nat :: m < |before| ==> before[m] <= after[m] && (m > j ==> before[m] == after[m])
  }

  /** The same for one ending of the symbol. */
  ghost predicate EnderKept(chart: seq<set<Item>>, kept: seq<set<Item>>, j: nat, c: nat, i: nat, e: nat)
    requires j < |chart| == |kept|
  {
    forall k: nat :: i <= k <= j && (e, k) in chart[j] && (c, i) in chart[k] ==> (c, i) in kept[k] && (e, k) in kept[j]
  }

  lemma EnderStays(chart: seq<set<Item>>, a: seq<set<Item>>, b: seq<set<Item>>, n: nat, j: nat, c: nat, i: nat, e: nat)
    requires Grew(a, b, n) && j < |chart| == |a| && EnderKept(chart, a, j, c, i, e)
    ensures EnderKept(chart, b, j, c, i, e)
  {
  }

  /** A dot that is not behind a symbol did not move. */
  lemma NothingBefore(p: Problem, chart: seq<set<Item>>, kept: seq<set<Item>>, j: nat, c: nat, i: nat)
    requires j < |chart| == |kept| && forall s :: c < |p.info| ==> !Before(p.info[c], s)
    ensures PartsKept(p, chart, kept, j, c, i)
  {
  }

  lemma EndersKept(p: Problem, chart: seq<set<Item>>, kept: seq<set<Item>>, j: nat, c: nat, i: nat, s: Sym, l: seq<nat>)
    requires j < |chart| == |kept| && c < |p.info| && Before(p.info[c], s)
    requires forall e: nat :: e in l <==> e < |p.info| && Completes(p.info[e], s)
    requires forall e :: e in l ==> EnderKept(chart, kept, j, c, i, e)
    ensures PartsKept(p, chart, kept, j, c, i)
  {
    hide Completes;
  }

  /** New items that are dealt with, of one configuration. */
  lemma StateKeptMore(p: Problem, chart: seq<set<Item>>, kept: seq<set<Item>>, j: nat, was: set<Item>, done: set<Item>, conf: nat)
    requires j < |chart| == |kept| && StateKept(p, chart, kept, j, was)
    requires forall x :: x in done ==> x in was || x.0 == conf
    requires forall i: nat :: (conf, i) in done && (conf, i) !in was && conf > 0 ==> PartsKept(p, chart, kept, j, conf - 1, i)
    ensures StateKept(p, chart, kept, j, done)
  {
    hide PartsKept;
  }

  lemma NoneKept(p: Problem, chart: seq<set<Item>>, kept: seq<set<Item>>, j: nat)
    requires j < |chart| == |kept|
    ensures StateKept(p, chart, kept, j, {})
  {
  }

  lemma GrewNone(a: seq<set<Item>>, j: nat)
    ensures Grew(a, a, j)
  {
  }

  lemma GrewAt(a: seq<set<Item>>, b: seq<set<Item>>, j: nat, k: nat)
    requires Grew(a, b, j) && k < |a|
    ensures |a| == |b| && a[k] <= b[k] && (k > j ==> a[k] == b[k])
  {
  }

  lemma GrewTwice(a: seq<set<Item>>, b: seq<set<Item>>, c: seq<set<Item>>, j: nat)
    requires Grew(a, b, j) && Grew(b, c, j)
    ensures Grew(a, c, j)
  {
  }

  lemma PartsStay(p: Problem, chart: seq<set<Item>>, a: seq<set<Item>>, b: seq<set<Item>>, n: nat, j: nat, c: nat, i: nat)
    requires Grew(a, b, n) && j < |chart| == |a| && PartsKept(p, chart, a, j, c, i)
    ensures PartsKept(p, chart, b, j, c, i)
  {
  }

  lemma StateStays(p: Problem, chart: seq<set<Item>>, a: seq<set<Item>>, b: seq<set<Item>>, n: nat, j: nat, done: set<Item>)
    requires Grew(a, b, n) && j < |chart| == |a| && StateKept(p, chart, a, j, done)
    ensures StateKept(p, chart, b, j, done)
  {
    forall c: nat, i: nat | (c + 1, i) in done ensures PartsKept(p, chart, b, j, c, i) {
      PartsStay(p, chart, a, b, n, j, c, i);
    }
  }

  lemma KeptStays(p: Problem, chart: seq<set<Item>>, a: seq<set<Item>>, b: seq<set<Item>>, j: nat)
    requires KeptFrom(p, chart, a, j + 1) && Grew(a, b, j) && j < |a| && StateKept(p, chart, b, j, b[j])
    ensures KeptFrom(p, chart, b, j)
  {
    forall m: nat | j <= m < |chart| ensures StateKept(p, chart, b, m, b[m]) {
      if m > j {
        StateStays(p, chart, a, b, j, m, a[m]);
      }
    }
  }

  // ----- everything in a parse is kept -----

  /** The setting of the two lemmas that follow. */
  ghost predicate Pruned(p: Problem, chart: seq<set<Item>>, kept: seq<set<Item>>) {
    && SymbolsOk(p.g, p.nts) && InfoOk(p.g, p.nts, p.info) && |chart| == |kept| == |p.toks| + 1 && ChartOk(p, chart, |chart|)
    && KeptFrom(p, chart, kept, 0)
  }

  lemma {:induction false} TreeKept(p: Problem, chart: seq<set<Item>>, kept: seq<set<Item>>, t: Tree, x: Span, e: nat, y: Span)
    returns (e2: nat)
    requires Pruned(p, chart, kept) && x.from <= x.to <= |p.toks| && x.sym in p.nts && Predicted(p, chart[x.from], x.sym, x.from)
    requires e < |p.info| && Completes(p.info[e], x.sym) && (e, x.from) in kept[x.to] && Root(p, t, x.sym, e)
    requires Part(p.g, p.toks, t, x, y)
    ensures y.from <= y.to <= |p.toks| && e2 < |p.info| && Completes(p.info[e2], y.sym) && (e2, y.from) in kept[y.to]
    decreases t
  {
    if x == y {
      return e;
    }
    var r := t.rule;
    var b := e - |r.body|;
    assert Starts(p.info[b], x.sym);
    assert r.body[..|r.body|] == r.body;
    hide Parts, InfoOk, ChartOk, KeptFrom;
    e2 := ForestKept(p, chart, kept, t.kids, r, b, |r.body|, x.from, x.to, y);
  }

  lemma {:induction false} ForestKept(p: Problem, chart: seq<set<Item>>, kept: seq<set<Item>>, f: Forest, r: Rule, b: nat, d: nat, i: nat, j: nat, y: Span)
    returns (e2: nat)
    requires Pruned(p, chart, kept) && i <= j <= |p.toks| && r in Rules(p.g) && d <= |r.body|
    requires b < |p.info| && p.info[b] == Dotted(r, 0) && (b, i) in chart[i] && (b + d, i) in kept[j]
    requires Parts(p.g, p.toks, f, r.body[..d], i, j, y)
    ensures y.from <= y.to <= |p.toks| && e2 < |p.info| && Completes(p.info[e2], y.sym) && (e2, y.from) in kept[y.to]
    decreases f
  {
    hide *;
    var k := PartsSplit(p.g, p.toks, f, r.body[..d], i, j, y);
    var first, s := r.body[..d - 1], r.body[d - 1];
    assert r.body[..d][..d - 1] == first && r.body[..d][d - 1] == s;
    PrunedIs(p, chart, kept);
    BeforeIs(r, d - 1);
    BodySymbol(p.g, p.nts, r, d - 1);
    ForestFound(p, chart, f.init, r, b, d - 1, i, k);
    PredictedAt(p, chart, b + d - 1, s, i, k);
    var e := TreeFound(p, chart, f.last, s, k, j);
    PartsAreKept(p, chart, kept, j, b + d - 1, i, e, k, s);
    if Parts(p.g, p.toks, f.init, first, i, k, y) {
      e2 := ForestKept(p, chart, kept, f.init, r, b, d - 1, i, k, y);
    } else {
      e2 := TreeKept(p, chart, kept, f.last, Span(s, k, j), e, y);
    }
  }

  lemma PartsSplit(g: Grammar, toks: seq<Token>, f: Forest, ss: seq<Sym>, i: nat, j: nat, y: Span) returns (k: nat)
    requires Parts(g, toks, f, ss, i, j, y)
    ensures f.Snoc? && |ss| > 0 && i <= k <= j && Derivations(g, toks, f.init, ss[..|ss| - 1], i, k)
    ensures Derivation(g, toks, f.last, ss[|ss| - 1], k, j)
    ensures Parts(g, toks, f.init, ss[..|ss| - 1], i, k, y) || Part(g, toks, f.last, Span(ss[|ss| - 1], k, j), y)
  {
    k :| i <= k <= j && PartsAt(g, toks, f, ss, i, k, j, y);
  }

  lemma PrunedIs(p: Problem, chart: seq<set<Item>>, kept: seq<set<Item>>)
    requires Pruned(p, chart, kept)
    ensures SymbolsOk(p.g, p.nts) && InfoOk(p.g, p.nts, p.info) && |chart| == |kept| == |p.toks| + 1 && ChartOk(p, chart, |chart|)
    ensures KeptFrom(p, chart, kept, 0)
  {
  }

  lemma BeforeIs(r: Rule, d: nat)
    ensures d < |r.body| ==> Before(Dotted(r, d), r.body[d])
  {
  }

  lemma PartsAreKept(p: Problem, chart: seq<set<Item>>, kept: seq<set<Item>>, j: nat, c: nat, i: nat, e: nat, k: nat, s: Sym)
    requires KeptFrom(p, chart, kept, 0) && j < |chart| && (c + 1, i) in kept[j] && i <= k <= j
    requires c < |p.info| && e < |p.info| && Before(p.info[c], s) && Completes(p.info[e], s) && (e, k) in chart[j] && (c, i) in chart[k]
    ensures (c, i) in kept[k] && (e, k) in kept[j]
  {
    assert StateKept(p, chart, kept, j, kept[j]);
    assert PartsKept(p, chart, kept, j, c, i);
  }

  lemma CompletesKnown(p: Problem, e: nat, s: Sym)
    requires SymbolsOk(p.g, p.nts) && InfoOk(p.g, p.nts, p.info) && e < |p.info| && Completes(p.info[e], s)
    ensures s in p.nts
  {
    if e >= |p.nts| {
      assert Fits(p.info, Rules(p.g), e);
    }
  }

  /** The kept complete items are exactly the constituents of the parses. */
  lemma KeptExactly(p: Problem, chart: seq<set<Item>>, kept: seq<set<Item>>, nt: Sym, i: nat, j: nat)
    requires Pruned(p, chart, kept) && |p.nts| > 0 && GoalsKept(p, chart, kept, p.nts[0])
    requires i <= j <= |p.toks| && UsefulSet(p, kept[j], j)
    ensures (exists e: nat :: e < |p.info| && Completes(p.info[e], nt) && (e, i) in kept[j]) <==>
            InParse(p.g, p.toks, p.nts[0], Span(nt, i, j))
  {
    var goal, n := p.nts[0], |p.toks|;
    if e: nat :| e < |p.info| && Completes(p.info[e], nt) && (e, i) in kept[j] {
      UsefulAt(p, kept[j], j, e, i);
      EnderUseful(p, goal, e, nt, i, j);
    }
    if InParse(p.g, p.toks, goal, Span(nt, i, j)) {
      var t :| Part(p.g, p.toks, t, Span(goal, 0, n), Span(nt, i, j));
      assert Tops(p.g, p.toks, t, Span(goal, 0, n));
      assert StateClosed(p, chart, 0);
      assert Predicted(p, chart[0], goal, 0);
      hide ChartOk, InfoOk, KeptFrom, SymbolsOk;
      var e := TreeFound(p, chart, t, goal, 0, n);
      var e2 := TreeKept(p, chart, kept, t, Span(goal, 0, n), e, Span(nt, i, j));
    }
  }

  /** The input as a whole is a constituent of a parse iff it has one. */
  lemma WholeParse(g: Grammar, toks: seq<Token>, goal: Sym)
    ensures InParse(g, toks, goal, Span(goal, 0, |toks|)) <==> Derives(g, toks, goal, 0, |toks|)
  {
    var x := Span(goal, 0, |toks|);
    if t :| Derivation(g, toks, t, goal, 0, |toks|) {
      assert Part(g, toks, t, x, x);
    }
    if t :| Part(g, toks, t, x, x) {
      PartDerives(g, toks, t, x, x);
    }
  }

  // ----- questions about an input -----

  /** The span is a constituent of a parse of the whole input from the grammar's goal. */
  ghost predicate Constituent(g: Grammar, toks: seq<Token>, y: Span) {
    |g| > 0 && InParse(g, toks, g[0].head, y)
  }

  lemma ConstituentIs(g: Grammar, toks: seq<Token>, y: Span)
    ensures Constituent(g, toks, y) <==> |g| > 0 && InParse(g, toks, g[0].head, y)
  {
  }

  /** The symbol ends some constituent at j. */
  ghost predicate EndsAt(g: Grammar, toks: seq<Token>, nt: Sym, j: nat) {
    exists k: nat :: k <= j && Constituent(g, toks, Span(nt, k, j))
  }

  lemma EndsAtIs(g: Grammar, toks: seq<Token>, nt: Sym, j: nat)
    ensures EndsAt(g, toks, nt, j) <==> exists k: nat :: k <= j && Constituent(g, toks, Span(nt, k, j))
  {
  }

  /** No symbol derives anything backwards. */
  lemma NoBackwards(g: Grammar, toks: seq<Token>, s: Sym, i: nat, j: nat)
    requires Derives(g, toks, s, i, j)
    ensures i <= j
  {
    var t :| Derivation(g, toks, t, s, i, j);
    if t.Node? {
      assert Derivations(g, toks, t.kids, t.rule.body, i, j);
    }
  }

  /** So no parse has a constituent that starts behind its end. */
  lemma ConstituentForwards(g: Grammar, toks: seq<Token>, y: Span)
    ensures Constituent(g, toks, y) ==> y.from <= y.to
  {
    if Constituent(g, toks, y) {
      var x := Span(g[0].head, 0, |toks|);
      var t :| Part(g, toks, t, x, y);
      PartDerives(g, toks, t, x, y);
      NoBackwards(g, toks, y.sym, y.from, y.to);
    }
  }
}
