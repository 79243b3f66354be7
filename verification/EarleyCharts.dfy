/**
  What a chart means.  An item (c, i) in state j says that the symbols before the
  dot of configuration c derive the tokens from i to j.  A closed chart has all
  items that matter.
*/
module EarleyCharts {
  import opened EarleyGrammars
  import opened EarleyTables

  type Item = (nat, nat)

  datatype Problem = Problem(g: Grammar, toks: seq<Token>, nts: seq<Sym>, info: seq<Conf>)

  // ----- soundness of single items -----

  ghost predicate ItemSound(p: Problem, c: nat, i: nat, j: nat) {
    && c < |p.info| && i <= j <= |p.toks|
    && match p.info[c]
       case Seen(s) => Derives(p.g, p.toks, s, i, j)
       case Dotted(r, d) => d <= |r.body| && DerivesAll(p.g, p.toks, r.body[..d], i, j)
  }

  ghost predicate Sound(p: Problem, has: set<Item>, j: nat) {
    forall c: nat, i: nat :: (c, i) in has ==> ItemSound(p, c, i, j)
  }

  lemma StarterSound(p: Problem, c: nat, s: Sym, j: nat)
    requires c < |p.info| && Starts(p.info[c], s) && j <= |p.toks|
    ensures ItemSound(p, c, j, j)
  {
    DerivesNothing(p.g, p.toks, j);
    assert p.info[c].rule.body[..0] == [];
  }

  lemma TokenSound(p: Problem, c: nat, i: nat)
    requires InfoOk(p.g, p.nts, p.info) && i < |p.toks| && c < |p.nts| && p.nts[c] in p.toks[i].classes
    ensures ItemSound(p, c, i, i + 1)
  {
    DerivesToken(p.g, p.toks, p.nts[c], i);
  }

  /** A complete item is a derivation of its symbol. */
  lemma CompleteDerives(p: Problem, e: nat, s: Sym, i: nat, j: nat)
    requires InfoOk(p.g, p.nts, p.info) && ItemSound(p, e, i, j) && Completes(p.info[e], s)
    ensures Derives(p.g, p.toks, s, i, j)
  {
    if p.info[e].Dotted? {
      var r := p.info[e].rule;
      assert r.body[..p.info[e].dot] == r.body;
      assert e >= |p.nts|;
      assert Fits(p.info, Rules(p.g), e);
      DerivesRule(p.g, p.toks, r, i, j);
    }
  }

  /** The dot moves over a symbol that derives the tokens in between. */
  lemma AdvanceSound(p: Problem, c: nat, e: nat, s: Sym, i: nat, k: nat, j: nat)
    requires InfoOk(p.g, p.nts, p.info) && ItemSound(p, c, i, k) && ItemSound(p, e, k, j)
    requires Before(p.info[c], s) && Completes(p.info[e], s)
    ensures ItemSound(p, c + 1, i, j)
  {
    CompleteDerives(p, e, s, k, j);
    var r, d := p.info[c].rule, p.info[c].dot;
    assert c >= |p.nts|;
    assert Fits(p.info, Rules(p.g), c);
    DerivesMore(p.g, p.toks, r.body[..d], s, i, k, j);
    assert r.body[..d + 1] == r.body[..d] + [s];
  }

  // ----- closure -----

  /** Every rule for a symbol after some dot is started. */
  ghost predicate Predicts(p: Problem, items: set<Item>, has: set<Item>, j: nat) {
    forall c: nat, i: nat, b: nat, s ::
      (c, i) in items && c < |p.info| && Before(p.info[c], s) && b < |p.info| && Starts(p.info[b], s) ==>
        (b, j) in has
  }

  /** Every dot before a symbol that is complete from k on has moved. */
  ghost predicate Advances(p: Problem, source: set<Item>, k: nat, ended: set<Item>, has: set<Item>) {
    forall c: nat, i: nat, e: nat, s ::
      (c, i) in source && c < |p.info| && Before(p.info[c], s) && (e, k) in ended && e < |p.info| && Completes(p.info[e], s) ==>
        (c + 1, i) in has
  }

  ghost predicate Seeded(p: Problem, has: set<Item>, j: nat) {
    if j == 0 then
      forall c: nat :: c < |p.info| && |p.nts| > 0 && Starts(p.info[c], p.nts[0]) ==> (c, 0) in has
    else
      forall c: nat :: c < |p.nts| && j <= |p.toks| && p.nts[c] in p.toks[j - 1].classes ==> (c, j - 1) in has
  }

  ghost predicate StateClosed(p: Problem, chart: seq<set<Item>>, j: nat)
    requires j < |chart|
  {
    && Seeded(p, chart[j], j) && Predicts(p, chart[j], chart[j], j)
    && (forall k: nat :: k <= j ==> Advances(p, chart[k], k, chart[j], chart[j]))
  }

  /** States 0 to n - 1 are finished. */
  ghost predicate ChartOk(p: Problem, chart: seq<set<Item>>, n: nat) {
    && n <= |chart|
    && (forall j: nat :: j < n ==> Sound(p, chart[j], j) && StateClosed(p, chart, j))
  }

  // ----- completeness of a closed chart -----

  ghost predicate Predicted(p: Problem, has: set<Item>, s: Sym, i: nat) {
    forall b: nat :: b < |p.info| && Starts(p.info[b], s) ==> (b, i) in has
  }

  lemma PredictedAt(p: Problem, chart: seq<set<Item>>, c: nat, s: Sym, i: nat, k: nat)
    requires ChartOk(p, chart, |chart|) && k < |chart| && c < |p.info| && (c, i) in chart[k] && Before(p.info[c], s)
    ensures Predicted(p, chart[k], s, k)
  {
    assert StateClosed(p, chart, k);
  }

  lemma AdvancedAt(p: Problem, chart: seq<set<Item>>, c: nat, e: nat, s: Sym, i: nat, k: nat, j: nat)
    requires InfoOk(p.g, p.nts, p.info) && ChartOk(p, chart, |chart|) && k <= j < |chart|
    requires c < |p.info| && (c, i) in chart[k] && Before(p.info[c], s)
    requires e < |p.info| && (e, k) in chart[j] && Completes(p.info[e], s)
    ensures (c + 1, i) in chart[j] && c + 1 < |p.info| && p.info[c + 1] == Dotted(p.info[c].rule, p.info[c].dot + 1)
  {
    assert StateClosed(p, chart, j);
    assert Advances(p, chart[k], k, chart[j], chart[j]);
    assert c >= |p.nts|;
    assert Fits(p.info, Rules(p.g), c);
  }

  lemma TokenFound(p: Problem, chart: seq<set<Item>>, s: Sym, i: nat) returns (e: nat)
    requires InfoOk(p.g, p.nts, p.info) && ChartOk(p, chart, |chart|) && i + 1 < |chart| && i < |p.toks|
    requires s in p.nts && s in p.toks[i].classes
    ensures e < |p.info| && Completes(p.info[e], s) && (e, i) in chart[i + 1] && e < |p.nts| && p.nts[e] == s
  {
    e :| 0 <= e < |p.nts| && p.nts[e] == s;
    assert StateClosed(p, chart, i + 1);
  }

  lemma RuleStart(p: Problem, r: Rule) returns (b: nat)
    requires InfoOk(p.g, p.nts, p.info) && r in Rules(p.g)
    ensures b < |p.info| && p.info[b] == Dotted(r, 0)
  {
    b :| b < |p.info| && p.info[b] == Dotted(r, 0);
  }

  /** The complete item that belongs to the root of the tree. */
  ghost predicate Root(p: Problem, t: Tree, s: Sym, e: nat) {
    match t
    case Terminal => e < |p.nts| && p.nts[e] == s
    case Node(rule, _) => e >= |rule.body| && e - |rule.body| < |p.info| && p.info[e - |rule.body|] == Dotted(rule, 0)
  }

  /** Every derivation of a predicted symbol is found. */
  lemma {:induction false} TreeFound(p: Problem, chart: seq<set<Item>>, t: Tree, s: Sym, i: nat, j: nat) returns (e: nat)
    requires SymbolsOk(p.g, p.nts) && InfoOk(p.g, p.nts, p.info) && |chart| == |p.toks| + 1 && ChartOk(p, chart, |chart|)
    requires i <= j <= |p.toks| && s in p.nts && Predicted(p, chart[i], s, i)
    requires Derivation(p.g, p.toks, t, s, i, j)
    ensures e < |p.info| && Completes(p.info[e], s) && (e, i) in chart[j] && Root(p, t, s, e)
    decreases t
  {
    hide ChartOk, InfoOk, SymbolsOk;
    match t
    case Terminal =>
      e := TokenFound(p, chart, s, i);
    case Node(rule, kids) =>
      var b := RuleStart(p, rule);
      assert Starts(p.info[b], s);
      assert rule.body[..|rule.body|] == rule.body;
      hide Derivations, Derivation;
      ForestFound(p, chart, kids, rule, b, |rule.body|, i, j);
      e := b + |rule.body|;
  }

  /** Every derivation of the first d symbols of a rule that is started is found. */
  lemma {:induction false} ForestFound(p: Problem, chart: seq<set<Item>>, f: Forest, r: Rule, b: nat, d: nat, i: nat, j: nat)
    requires SymbolsOk(p.g, p.nts) && InfoOk(p.g, p.nts, p.info) && |chart| == |p.toks| + 1 && ChartOk(p, chart, |chart|)
    requires i <= j <= |p.toks| && b < |p.info| && p.info[b] == Dotted(r, 0) && (b, i) in chart[i] && d <= |r.body| && r in Rules(p.g)
    requires Derivations(p.g, p.toks, f, r.body[..d], i, j)
    ensures b + d < |p.info| && p.info[b + d] == Dotted(r, d) && (b + d, i) in chart[j]
    decreases f
  {
    hide ChartOk, InfoOk, SymbolsOk;
    match f
    case Nil =>
    case Snoc(init, last) =>
      var first, s := r.body[..d][..d - 1], r.body[..d][d - 1];
      var k: nat :| i <= k <= j && Derivations(p.g, p.toks, init, first, i, k) && Derivation(p.g, p.toks, last, s, k, j);
      assert first == r.body[..d - 1] && s == r.body[d - 1];
      BodySymbol(p.g, p.nts, r, d - 1);
      hide Derivation, Derivations;
      ForestFound(p, chart, init, r, b, d - 1, i, k);
      PredictedAt(p, chart, b + d - 1, s, i, k);
      var e := TreeFound(p, chart, last, s, k, j);
      AdvancedAt(p, chart, b + d - 1, e, s, i, k, j);
  }

  /** The chart answers the recognition question exactly. */
  lemma GoalFound(p: Problem, chart: seq<set<Item>>)
    requires SymbolsOk(p.g, p.nts) && InfoOk(p.g, p.nts, p.info) && |chart| == |p.toks| + 1 && ChartOk(p, chart, |chart|)
    requires |p.nts| > 0
    ensures Derives(p.g, p.toks, p.nts[0], 0, |p.toks|) <==>
            exists e: nat :: e < |p.info| && Completes(p.info[e], p.nts[0]) && (e, 0) in chart[|p.toks|]
  {
    var n, s := |p.toks|, p.nts[0];
    if Derives(p.g, p.toks, s, 0, n) {
      var t :| Derivation(p.g, p.toks, t, s, 0, n);
      assert StateClosed(p, chart, 0);
      var e := TreeFound(p, chart, t, s, 0, n);
    }
    if e: nat :| e < |p.info| && Completes(p.info[e], s) && (e, 0) in chart[n] {
      assert Sound(p, chart[n], n);
      CompleteDerives(p, e, s, 0, n);
    }
  }

  // ----- one step of the agenda keeps the closure -----

  /** What holds of state j between two agenda steps; the earlier states are finished. */
  ghost predicate Working(p: Problem, chart: seq<set<Item>>, j: nat, has: set<Item>, done: set<Item>) {
    && |chart| == j && ChartOk(p, chart, j)
    && Sound(p, has, j) && Seeded(p, has, j) && done <= has
    && Closing(p, chart, j, has, done)
  }

  ghost predicate Closing(p: Problem, chart: seq<set<Item>>, j: nat, has: set<Item>, done: set<Item>)
    requires |chart| == j
  {
    && Predicts(p, done, has, j)
    && (forall k: nat :: k < j ==> Advances(p, chart[k], k, done, has))
    && Advances(p, done, j, done, has)
  }

  lemma ClosingMore(p: Problem, chart: seq<set<Item>>, j: nat, has: set<Item>, done: set<Item>, more: set<Item>)
    requires |chart| == j && Closing(p, chart, j, has, done) && has <= more
    ensures Closing(p, chart, j, more, done)
  {
    forall k: nat | k < j ensures Advances(p, chart[k], k, done, more) {
      assert Advances(p, chart[k], k, done, has);
    }
  }

  /** New members of a configuration with the dot before symbol s are dealt with. */
  lemma ClosingPredict(p: Problem, chart: seq<set<Item>>, j: nat, has: set<Item>, old_: set<Item>, done: set<Item>, conf: nat, s: Sym)
    requires InfoOk(p.g, p.nts, p.info) && |chart| == j && Closing(p, chart, j, has, old_)
    requires conf < |p.info| && Before(p.info[conf], s)
    requires forall x :: x in done ==> x in old_ || x.0 == conf
    requires Predicted(p, has, s, j)
    requires forall e: nat, i: nat :: (e, j) in done && e < |p.info| && Completes(p.info[e], s) && (conf, i) in done ==> (conf + 1, i) in has
    ensures Closing(p, chart, j, has, done)
  {
    forall k: nat | k < j ensures Advances(p, chart[k], k, done, has) {
      assert Advances(p, chart[k], k, old_, has);
    }
  }

  /** New members of a configuration that completes symbol s are dealt with. */
  lemma ClosingComplete(p: Problem, chart: seq<set<Item>>, j: nat, has: set<Item>, old_: set<Item>, done: set<Item>, conf: nat, s: Sym)
    requires InfoOk(p.g, p.nts, p.info) && |chart| == j && Closing(p, chart, j, has, old_)
    requires conf < |p.info| && Completes(p.info[conf], s)
    requires forall x :: x in done ==> x in old_ || x.0 == conf
    requires forall c: nat, i: nat, k: nat ::
      k <= j && (conf, k) in done && (conf, k) !in old_ && c < |p.info| && Before(p.info[c], s) && (c, i) in (chart + [done])[k] ==>
        (c + 1, i) in has
    ensures Closing(p, chart, j, has, done)
  {
    forall k: nat | k < j ensures Advances(p, chart[k], k, done, has) {
      assert Advances(p, chart[k], k, old_, has);
      assert (chart + [done])[k] == chart[k];
    }
    assert (chart + [done])[j] == done;
  }

  /** An empty agenda: the state is finished. */
  lemma Finished(p: Problem, chart: seq<set<Item>>, j: nat, has: set<Item>)
    requires Working(p, chart, j, has, has)
    ensures ChartOk(p, chart + [has], j + 1)
  {
    var more := chart + [has];
    forall i: nat | i < j + 1 ensures Sound(p, more[i], i) && StateClosed(p, more, i) {
      if i < j {
        assert StateClosed(p, chart, i);
        assert forall k: nat :: k <= i ==> more[k] == chart[k];
      } else {
        assert forall k: nat :: k < j ==> more[k] == chart[k];
        assert more[j] == has;
      }
    }
  }
}
