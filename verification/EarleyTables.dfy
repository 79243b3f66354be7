/**
  The parser tables.  Configurations are numbered: first one for each symbol seen
  as a token, then, rule by rule, one for each position of the dot.
*/
module EarleyTables {
  import opened Wrappers
  import opened EarleyGrammars

  /** What the number of a configuration stands for. */
  datatype Conf = Seen(sym: Sym) | Dotted(rule: Rule, dot: nat)

  datatype Tables = Tables(
    nts: seq<Sym>,                 // the symbols; the goal is the first
    starters: seq<seq<nat>>,       // by symbol: configurations with the dot at the start
    enders: seq<seq<nat>>,         // by symbol: configurations that complete it
    predictors: seq<seq<nat>>,     // by symbol: configurations with the dot before it
    steps: seq<int>)               // by configuration: the symbol after the dot, or the completed one less |nts|

  ghost predicate Before(c: Conf, s: Sym) {
    c.Dotted? && c.dot < |c.rule.body| && c.rule.body[c.dot] == s
  }

  ghost predicate Completes(c: Conf, s: Sym) {
    match c
    case Seen(sym) => sym == s
    case Dotted(rule, dot) => rule.head == s && dot == |rule.body|
  }

  ghost predicate Starts(c: Conf, s: Sym) {
    c.Dotted? && c.rule.head == s && c.dot == 0
  }

  // ----- the four tables, each filled for the configurations below n -----

  ghost predicate StepsOk(steps: seq<int>, nts: seq<Sym>, info: seq<Conf>, n: nat) {
    n <= |steps| == |info| &&
    forall c: nat :: c < n ==>
      if exists s :: Before(info[c], s)
      then 0 <= steps[c] < |nts| && Before(info[c], nts[steps[c]])
      else 0 <= steps[c] + |nts| < |nts| && Completes(info[c], nts[steps[c] + |nts|])
  }

  ghost predicate StartersOk(starters: seq<seq<nat>>, nts: seq<Sym>, info: seq<Conf>, n: nat) {
    n <= |info| && |starters| == |nts| &&
    forall s: nat, c: nat {:trigger c in starters[s]} :: s < |nts| ==> (c in starters[s] <==> c < n && Starts(info[c], nts[s]))
  }

  ghost predicate EndersOk(enders: seq<seq<nat>>, nts: seq<Sym>, info: seq<Conf>, n: nat) {
    n <= |info| && |enders| == |nts| &&
    forall s: nat, c: nat {:trigger c in enders[s]} :: s < |nts| ==> (c in enders[s] <==> c < n && Completes(info[c], nts[s]))
  }

  ghost predicate PredictorsOk(predictors: seq<seq<nat>>, nts: seq<Sym>, info: seq<Conf>, n: nat) {
    n <= |info| && |predictors| == |nts| &&
    forall s: nat, c: nat {:trigger c in predictors[s]} :: s < |nts| ==> (c in predictors[s] <==> c < n && Before(info[c], nts[s]))
  }

  /** A dot in some rule, with its neighbours beside it. */
  ghost predicate Fits(l: seq<Conf>, rules: seq<Rule>, c: nat)
    requires c < |l|
  {
    && l[c].Dotted? && l[c].rule in rules && l[c].dot <= |l[c].rule.body|
    && (l[c].dot < |l[c].rule.body| ==> c + 1 < |l| && l[c + 1] == Dotted(l[c].rule, l[c].dot + 1))
    && (l[c].dot > 0 ==> c > 0 && l[c - 1] == Dotted(l[c].rule, l[c].dot - 1))
  }

  /** The configurations stand for exactly the rules of the grammar, dot by dot. */
  ghost predicate InfoOk(g: Grammar, nts: seq<Sym>, info: seq<Conf>) {
    && |nts| <= |info|
    && (forall c: nat :: c < |nts| ==> info[c] == Seen(nts[c]))
    && (forall c: nat :: |nts| <= c < |info| ==> Fits(info, Rules(g), c))
    && (forall r :: r in Rules(g) ==> exists c: nat :: c < |info| && info[c] == Dotted(r, 0))
  }

  ghost predicate SymbolsOk(g: Grammar, nts: seq<Sym>) {
    && Distinct(nts)
    && (forall r :: r in Rules(g) ==> r.head in nts && forall s :: s in r.body ==> s in nts)
  }

  ghost predicate TablesOk(g: Grammar, t: Tables, info: seq<Conf>) {
    && SymbolsOk(g, t.nts) && InfoOk(g, t.nts, info)
    && StepsOk(t.steps, t.nts, info, |info|)
    && StartersOk(t.starters, t.nts, info, |info|)
    && EndersOk(t.enders, t.nts, info, |info|)
    && PredictorsOk(t.predictors, t.nts, info, |info|)
  }

  // ----- the numbering -----

  function RuleConfs(r: Rule): (s: seq<Conf>)
    ensures |s| == |r.body| + 1
  {
    seq(|r.body| + 1, d requires 0 <= d <= |r.body| => Dotted(r, d))
  }

  function Layout(rules: seq<Rule>): seq<Conf> {
    if rules == [] then [] else Layout(rules[..|rules| - 1]) + RuleConfs(rules[|rules| - 1])
  }

  function AllConfs(nts: seq<Sym>, rules: seq<Rule>): seq<Conf> {
    seq(|nts|, i requires 0 <= i < |nts| => Seen(nts[i])) + Layout(rules)
  }

  lemma {:induction false} LayoutConcat(a: seq<Rule>, b: seq<Rule>)
    ensures Layout(a + b) == Layout(a) + Layout(b)
  {
    if b == [] {
      assert a + b == a;
    } else {
      var n := |b| - 1;
      assert (a + b)[..|a + b| - 1] == a + b[..n];
      LayoutConcat(a, b[..n]);
    }
  }

  lemma {:induction false} LayoutAt(rules: seq<Rule>, c: nat)
    requires c < |Layout(rules)|
    ensures Fits(Layout(rules), rules, c)
  {
    var n := |rules| - 1;
    if c < |Layout(rules[..n])| {
      LayoutAt(rules[..n], c);
    }
  }

  lemma {:induction false} LayoutHas(rules: seq<Rule>, r: Rule) returns (c: nat)
    requires r in rules
    ensures c < |Layout(rules)| && Layout(rules)[c] == Dotted(r, 0)
  {
    var n := |rules| - 1;
    if r == rules[n] {
      c := |Layout(rules[..n])|;
    } else {
      c := LayoutHas(rules[..n], r);
    }
  }

  lemma FitsShifted(pre: seq<Conf>, l: seq<Conf>, rules: seq<Rule>, c: nat)
    requires c < |l| && Fits(l, rules, c)
    ensures Fits(pre + l, rules, |pre| + c) && (l[c].dot > 0 ==> (pre + l)[|pre| + c - 1] == l[c - 1])
  {
    var all := pre + l;
    assert all[|pre| + c] == l[c];
    assert l[c].dot < |l[c].rule.body| ==> all[|pre| + c + 1] == l[c + 1];
    assert l[c].dot > 0 ==> all[|pre| + c - 1] == l[c - 1];
  }

  lemma AllConfsOk(g: Grammar, nts: seq<Sym>)
    ensures InfoOk(g, nts, AllConfs(nts, Rules(g)))
  {
    var seen, l := seq(|nts|, i requires 0 <= i < |nts| => Seen(nts[i])), Layout(Rules(g));
    var info := AllConfs(nts, Rules(g));
    assert info == seen + l && forall c :: 0 <= c < |nts| ==> info[c] == Seen(nts[c]);
    forall r | r in Rules(g) ensures exists c: nat :: c < |info| && info[c] == Dotted(r, 0) {
      var c := LayoutHas(Rules(g), r);
      assert info[|nts| + c] == Dotted(r, 0);
    }
    hide Layout, AllConfs, Rules;
    forall c: nat | |nts| <= c < |info| ensures Fits(info, Rules(g), c) {
      LayoutAt(Rules(g), c - |nts|);
      FitsShifted(seen, l, Rules(g), c - |nts|);
    }
  }

  /** What precedes a rule's configurations, and what they are. */
  lemma AllConfsAt(nts: seq<Sym>, done: seq<Rule>, r: Rule, rest: seq<Rule>)
    ensures var c := |AllConfs(nts, done)|; var all := AllConfs(nts, done + [r] + rest);
            c + |r.body| < |all| && |AllConfs(nts, done + [r])| == c + |r.body| + 1 &&
            forall d :: 0 <= d <= |r.body| ==> all[c + d] == Dotted(r, d)
  {
    var seen := seq(|nts|, i requires 0 <= i < |nts| => Seen(nts[i]));
    LayoutConcat(done, [r]);
    LayoutConcat(done + [r], rest);
    OneRule(r);
    InTheMiddle(seen, Layout(done), RuleConfs(r), Layout(rest));
    hide Layout, RuleConfs;
  }

  lemma OneRule(r: Rule)
    ensures Layout([r]) == RuleConfs(r) && |RuleConfs(r)| == |r.body| + 1
    ensures forall d :: 0 <= d <= |r.body| ==> RuleConfs(r)[d] == Dotted(r, d)
  {
    assert [r][..0] == [];
  }

  lemma InTheMiddle(seen: seq<Conf>, a: seq<Conf>, b: seq<Conf>, c: seq<Conf>)
    ensures var all := seen + ((a + b) + c);
            |all| == |seen + a| + |b| + |c| && forall d :: 0 <= d < |b| ==> all[|seen + a| + d] == b[d]
  {
  }

  // ----- the construction -----

  /** The index of a symbol, searched from the end. */
  method Ind(nt: Sym, nts: seq<Sym>) returns (r: Option<nat>)
    ensures r.None? <==> nt !in nts
    ensures r.Some? ==> r.value < |nts| && nts[r.value] == nt
  {
    var i := |nts| - 1;
    while i >= 0
      invariant -1 <= i < |nts|
      invariant forall k :: i < k < |nts| ==> nts[k] != nt
    {
      if nts[i] == nt {
        return Some(i);
      }
      i := i - 1;
    }
    r := None;
  }

  lemma RulesPrefix(g: Grammar, n: nat)
    requires n < |g|
    ensures Rules(g[..n + 1]) == Rules(g[..n]) + RulesOf(g[n])
  {
    assert g[..n + 1][..n] == g[..n];
  }

  method AddSymbol(nt: Sym, nts: seq<Sym>) returns (r: seq<Sym>)
    requires Distinct(nts)
    ensures Distinct(r) && nts <= r && (forall s :: s in r <==> s in nts || s == nt)
    ensures nts == [] ==> r == [nt]
  {
    r := if nt in nts then nts else nts + [nt];
  }

  /** All symbols in the order of their first occurrence; the goal is the head of the first entry. */
  method CollectSymbols(g: Grammar) returns (nts: seq<Sym>)
    ensures SymbolsOk(g, nts)
    ensures if |g| > 0 then |nts| > 0 && nts[0] == g[0].head else |nts| == 0
  {
    nts := [];
    var d := 0;
    while d < |g|
      invariant d <= |g| && SymbolsOk(g[..d], nts)
      invariant d == 0 ==> nts == []
      invariant d > 0 ==> |nts| > 0 && nts[0] == g[0].head
    {
      RulesPrefix(g, d);
      nts := AddSymbol(g[d].head, nts);
      var b := 0;
      while b < |g[d].bodies|
        invariant b <= |g[d].bodies| && Distinct(nts) && g[d].head in nts
        invariant |nts| > 0 && nts[0] == g[0].head
        invariant SymbolsOk(g[..d], nts)
        invariant forall k :: 0 <= k < b ==> forall s :: s in g[d].bodies[k] ==> s in nts
      {
        var l := g[d].bodies[b];
        var i := 0;
        while i < |l|
          invariant i <= |l| && Distinct(nts) && g[d].head in nts
          invariant |nts| > 0 && nts[0] == g[0].head
          invariant SymbolsOk(g[..d], nts)
          invariant forall k :: 0 <= k < b ==> forall s :: s in g[d].bodies[k] ==> s in nts
          invariant forall s :: s in l[..i] ==> s in nts
        {
          nts := AddSymbol(l[i], nts);
          i := i + 1;
        }
        b := b + 1;
      }
      d := d + 1;
    }
    assert g[..|g|] == g;
  }

  /** One number for each symbol and each dot position. */
  method CountConfs(g: Grammar, nts: seq<Sym>) returns (n: nat)
    ensures n == |AllConfs(nts, Rules(g))|
  {
    n := |nts|;
    var d := 0;
    while d < |g|
      invariant d <= |g| && n == |nts| + |Layout(Rules(g[..d]))|
    {
      RulesPrefix(g, d);
      var b := 0;
      assert Rules(g[..d]) + RulesOf(g[d])[..b] == Rules(g[..d]);
      while b < |g[d].bodies|
        invariant b <= |g[d].bodies|
        invariant n == |nts| + |Layout(Rules(g[..d]) + RulesOf(g[d])[..b])|
      {
        var r := RulesOf(g[d])[b];
        assert Rules(g[..d]) + RulesOf(g[d])[..b + 1] == (Rules(g[..d]) + RulesOf(g[d])[..b]) + [r];
        LayoutConcat(Rules(g[..d]) + RulesOf(g[d])[..b], [r]);
        assert Layout([r]) == RuleConfs(r) by {
          assert [r][..0] == [];
        }
        var i := 0;
        while i < |g[d].bodies[b]|
          invariant i <= |g[d].bodies[b]|
          invariant n == |nts| + |Layout(Rules(g[..d]) + RulesOf(g[d])[..b])| + i
        {
          i := i + 1;
          n := n + 1;
        }
        b := b + 1;
        n := n + 1;
      }
      assert RulesOf(g[d])[..b] == RulesOf(g[d]);
      d := d + 1;
    }
    assert g[..|g|] == g;
  }

  /** The rule of a body, as a position among all rules. */
  lemma RulesSplit(g: Grammar, d: nat, b: nat) returns (rest: seq<Rule>)
    requires d < |g| && b < |g[d].bodies|
    ensures Rules(g) == (Rules(g[..d]) + RulesOf(g[d])[..b]) + [RulesOf(g[d])[b]] + rest
    ensures Rules(g[..d]) + RulesOf(g[d])[..b + 1] == (Rules(g[..d]) + RulesOf(g[d])[..b]) + [RulesOf(g[d])[b]]
  {
    RulesPrefix(g, d);
    var more := RulesTail(g, d + 1);
    rest := RulesOf(g[d])[b + 1..] + more;
    assert RulesOf(g[d]) == RulesOf(g[d])[..b] + [RulesOf(g[d])[b]] + RulesOf(g[d])[b + 1..];
  }

  lemma {:induction false} RulesTail(g: Grammar, d: nat) returns (rest: seq<Rule>)
    requires d <= |g|
    ensures Rules(g) == Rules(g[..d]) + rest
  {
    if d == |g| {
      assert g[..d] == g;
      rest := [];
    } else {
      var more := RulesTail(g[..|g| - 1], d);
      assert g[..|g| - 1][..d] == g[..d];
      rest := more + RulesOf(g[|g| - 1]);
    }
  }

  lemma BodyCount(d: Def)
    ensures |RulesOf(d)| == |d.bodies|
  {
  }

  /** The configurations of one rule among all. */
  lemma RuleAt(g: Grammar, nts: seq<Sym>, d: nat, b: nat)
    requires d < |g| && b < |g[d].bodies|
    ensures var done := Rules(g[..d]) + RulesOf(g[d])[..b];
            var rule := Rule(g[d].head, g[d].bodies[b]);
            var c, all := |AllConfs(nts, done)|, AllConfs(nts, Rules(g));
            && rule in Rules(g) && c + |rule.body| < |all|
            && (forall k :: 0 <= k <= |rule.body| ==> all[c + k] == Dotted(rule, k))
            && |AllConfs(nts, Rules(g[..d]) + RulesOf(g[d])[..b + 1])| == c + |rule.body| + 1
  {
    hide AllConfs, Rules;
    var done := Rules(g[..d]) + RulesOf(g[d])[..b];
    var rule := RulesOf(g[d])[b];
    var rest := RulesSplit(g, d, b);
    AllConfsAt(nts, done, rule, rest);
    assert (done + [rule] + rest)[|done|] == rule;
  }

  lemma BodySymbol(g: Grammar, nts: seq<Sym>, rule: Rule, d: nat)
    requires SymbolsOk(g, nts) && rule in Rules(g)
    ensures Distinct(nts) && rule.head in nts && (d < |rule.body| ==> rule.body[d] in nts)
  {
  }

  lemma StepAdded(steps: seq<int>, nts: seq<Sym>, info: seq<Conf>, n: nat, rule: Rule, dot: nat, s: nat)
    requires StepsOk(steps, nts, info, n) && n < |info| && info[n] == Dotted(rule, dot) && s < |nts|
    ensures dot < |rule.body| && nts[s] == rule.body[dot] ==> StepsOk(steps[n := s], nts, info, n + 1)
    ensures dot == |rule.body| && nts[s] == rule.head ==> StepsOk(steps[n := s - |nts|], nts, info, n + 1)
  {
    assert dot < |rule.body| ==> Before(info[n], rule.body[dot]);
  }

  lemma StarterAdded(table: seq<seq<nat>>, nts: seq<Sym>, info: seq<Conf>, n: nat, s: nat)
    requires StartersOk(table, nts, info, n) && n < |info| && Distinct(nts) && s < |nts|
    ensures Starts(info[n], nts[s]) ==> StartersOk(table[s := [n] + table[s]], nts, info, n + 1)
    ensures info[n].Dotted? && info[n].dot > 0 ==> StartersOk(table, nts, info, n + 1)
  {
    if Starts(info[n], nts[s]) {
      var more := table[s := [n] + table[s]];
      forall q: nat, c: nat | q < |nts| ensures c in more[q] <==> c < n + 1 && Starts(info[c], nts[q]) {
        assert c in table[q] <==> c < n && Starts(info[c], nts[q]);
        assert c in more[q] <==> c in table[q] || (q == s && c == n);
        assert Starts(info[n], nts[q]) <==> q == s;
      }
    }
  }

  lemma EnderAdded(table: seq<seq<nat>>, nts: seq<Sym>, info: seq<Conf>, n: nat, s: nat)
    requires EndersOk(table, nts, info, n) && n < |info| && Distinct(nts) && s < |nts| && info[n].Dotted?
    ensures Completes(info[n], nts[s]) ==> EndersOk(table[s := [n] + table[s]], nts, info, n + 1)
    ensures info[n].dot != |info[n].rule.body| ==> EndersOk(table, nts, info, n + 1)
  {
    if Completes(info[n], nts[s]) {
      var more := table[s := [n] + table[s]];
      forall q: nat, c: nat | q < |nts| ensures c in more[q] <==> c < n + 1 && Completes(info[c], nts[q]) {
        assert c in table[q] <==> c < n && Completes(info[c], nts[q]);
        assert c in more[q] <==> c in table[q] || (q == s && c == n);
        assert Completes(info[n], nts[q]) <==> q == s;
      }
    }
  }

  lemma PredictorAdded(table: seq<seq<nat>>, nts: seq<Sym>, info: seq<Conf>, n: nat, s: nat)
    requires PredictorsOk(table, nts, info, n) && n < |info| && Distinct(nts) && s < |nts|
    ensures Before(info[n], nts[s]) ==> PredictorsOk(table[s := [n] + table[s]], nts, info, n + 1)
    ensures info[n].Dotted? && info[n].dot == |info[n].rule.body| ==> PredictorsOk(table, nts, info, n + 1)
  {
    if Before(info[n], nts[s]) {
      var more := table[s := [n] + table[s]];
      forall q: nat, c: nat | q < |nts| ensures c in more[q] <==> c < n + 1 && Before(info[c], nts[q]) {
        assert c in table[q] <==> c < n && Before(info[c], nts[q]);
        assert c in more[q] <==> c in table[q] || (q == s && c == n);
        assert Before(info[n], nts[q]) <==> q == s;
      }
    }
  }

  /** The entries of one rule: its starter, a step and a predictor for each symbol, its ender. */
  method AddRule(rule: Rule, conf0: nat, t0: Tables, ghost g: Grammar, ghost info: seq<Conf>) returns (t: Tables, conf: nat)
    requires SymbolsOk(g, t0.nts) && rule in Rules(g)
    requires conf0 + |rule.body| < |info| && forall d :: 0 <= d <= |rule.body| ==> info[conf0 + d] == Dotted(rule, d)
    requires StepsOk(t0.steps, t0.nts, info, conf0) && StartersOk(t0.starters, t0.nts, info, conf0)
    requires EndersOk(t0.enders, t0.nts, info, conf0) && PredictorsOk(t0.predictors, t0.nts, info, conf0)
    ensures conf == conf0 + |rule.body| + 1 && t.nts == t0.nts
    ensures StepsOk(t.steps, t.nts, info, conf) && StartersOk(t.starters, t.nts, info, conf)
    ensures EndersOk(t.enders, t.nts, info, conf) && PredictorsOk(t.predictors, t.nts, info, conf)
  {
    conf := conf0;
    var nts, starters, enders, predictors, steps := t0.nts, t0.starters, t0.enders, t0.predictors, t0.steps;
    BodySymbol(g, nts, rule, 0);
    var head := Ind(rule.head, nts);
    var h := head.value;
    assert |starters| == |enders| == |predictors| == |nts| && |steps| == |info|;
    assert info[conf0 + 0] == Dotted(rule, 0);
    StarterAdded(starters, nts, info, conf, h);
    hide SymbolsOk, StepsOk, StartersOk, EndersOk, PredictorsOk, Distinct, Starts;
    starters := starters[h := [conf] + starters[h]];
    var d := 0;
    while d < |rule.body|
      invariant d <= |rule.body| && conf == conf0 + d
      invariant |starters| == |enders| == |predictors| == |nts| && |steps| == |info|
      invariant StepsOk(steps, nts, info, conf) && PredictorsOk(predictors, nts, info, conf)
      invariant EndersOk(enders, nts, info, conf) && StartersOk(starters, nts, info, conf + 1)
    {
      BodySymbol(g, nts, rule, d);
      var s := Ind(rule.body[d], nts);
      StepAdded(steps, nts, info, conf, rule, d, s.value);
      PredictorAdded(predictors, nts, info, conf, s.value);
      EnderAdded(enders, nts, info, conf, s.value);
      assert info[conf0 + (d + 1)] == Dotted(rule, d + 1);
      StarterAdded(starters, nts, info, conf + 1, s.value);
      steps := steps[conf := s.value];
      predictors := predictors[s.value := [conf] + predictors[s.value]];
      conf := conf + 1;
      d := d + 1;
    }
    StepAdded(steps, nts, info, conf, rule, d, h);
    PredictorAdded(predictors, nts, info, conf, h);
    EnderAdded(enders, nts, info, conf, h);
    steps := steps[conf := h - |nts|];
    enders := enders[h := [conf] + enders[h]];
    conf := conf + 1;
    t := Tables(nts, starters, enders, predictors, steps);
  }

  /** The entries of the symbols themselves, from the last to the first. */
  method SeenConfs(t0: Tables, ghost info: seq<Conf>) returns (t: Tables)
    requires |t0.steps| == |info| >= |t0.nts| && Distinct(t0.nts)
    requires |t0.starters| == |t0.enders| == |t0.predictors| == |t0.nts|
    requires forall s :: 0 <= s < |t0.nts| ==> t0.starters[s] == t0.enders[s] == t0.predictors[s] == []
    requires forall c :: 0 <= c < |t0.nts| ==> info[c] == Seen(t0.nts[c])
    ensures t.nts == t0.nts && StepsOk(t.steps, t.nts, info, |t.nts|) && StartersOk(t.starters, t.nts, info, |t.nts|)
    ensures EndersOk(t.enders, t.nts, info, |t.nts|) && PredictorsOk(t.predictors, t.nts, info, |t.nts|)
  {
    hide StepsOk, StartersOk, EndersOk, PredictorsOk, Distinct;
    var steps, enders := t0.steps, t0.enders;
    var i := |t0.nts| - 1;
    while i >= 0
      invariant -1 <= i < |t0.nts| && |steps| == |info| && |enders| == |t0.nts|
      invariant forall c :: i < c < |t0.nts| ==> steps[c] == c - |t0.nts| && enders[c] == [c]
    {
      steps := steps[i := i - |t0.nts|];
      enders := enders[i := [i]];
      i := i - 1;
    }
    t := t0.(steps := steps, enders := enders);
    SeenOk(t, info);
  }

  lemma SeenOk(t: Tables, info: seq<Conf>)
    requires |t.steps| == |info| >= |t.nts| && Distinct(t.nts)
    requires |t.starters| == |t.enders| == |t.predictors| == |t.nts|
    requires forall s :: 0 <= s < |t.nts| ==> t.starters[s] == t.predictors[s] == [] && t.enders[s] == [s]
    requires forall c :: 0 <= c < |t.nts| ==> info[c] == Seen(t.nts[c]) && t.steps[c] == c - |t.nts|
    ensures StepsOk(t.steps, t.nts, info, |t.nts|) && StartersOk(t.starters, t.nts, info, |t.nts|)
    ensures EndersOk(t.enders, t.nts, info, |t.nts|) && PredictorsOk(t.predictors, t.nts, info, |t.nts|)
  {
  }

  /** The entries of all rules, in the order of the numbering. */
  method AddRules(g: Grammar, t0: Tables, ghost info: seq<Conf>) returns (t: Tables)
    requires info == AllConfs(t0.nts, Rules(g)) && SymbolsOk(g, t0.nts)
    requires StepsOk(t0.steps, t0.nts, info, |t0.nts|) && StartersOk(t0.starters, t0.nts, info, |t0.nts|)
    requires EndersOk(t0.enders, t0.nts, info, |t0.nts|) && PredictorsOk(t0.predictors, t0.nts, info, |t0.nts|)
    ensures t.nts == t0.nts
    ensures StepsOk(t.steps, t.nts, info, |info|) && StartersOk(t.starters, t.nts, info, |info|)
    ensures EndersOk(t.enders, t.nts, info, |info|) && PredictorsOk(t.predictors, t.nts, info, |info|)
  {
    t := t0;
    ghost var nts := t0.nts;
    var conf: nat := |t0.nts|;
    var d := 0;
    assert g[..0] == [] && |AllConfs(nts, Rules(g[..0]))| == |nts|;
    hide StepsOk, StartersOk, EndersOk, PredictorsOk, SymbolsOk, AllConfs, Rules, RulesOf;
    while d < |g|
      invariant d <= |g| && t.nts == nts && conf == |AllConfs(nts, Rules(g[..d]))|
      invariant StepsOk(t.steps, nts, info, conf) && StartersOk(t.starters, nts, info, conf)
      invariant EndersOk(t.enders, nts, info, conf) && PredictorsOk(t.predictors, nts, info, conf)
    {
      RulesPrefix(g, d);
      assert Rules(g[..d]) + RulesOf(g[d])[..0] == Rules(g[..d]);
      BodyCount(g[d]);
      var b := 0;
      while b < |g[d].bodies|
        invariant b <= |g[d].bodies| && t.nts == nts && conf == |AllConfs(nts, Rules(g[..d]) + RulesOf(g[d])[..b])|
        invariant StepsOk(t.steps, nts, info, conf) && StartersOk(t.starters, nts, info, conf)
        invariant EndersOk(t.enders, nts, info, conf) && PredictorsOk(t.predictors, nts, info, conf)
      {
        RuleAt(g, nts, d, b);
        t, conf := AddRule(Rule(g[d].head, g[d].bodies[b]), conf, t, g, info);
        b := b + 1;
      }
      assert RulesOf(g[d])[..b] == RulesOf(g[d]);
      d := d + 1;
    }
    assert g[..|g|] == g;
  }

  /** The tables of a grammar. */
  method MakeTables(g: Grammar) returns (t: Tables, ghost info: seq<Conf>)
    ensures TablesOk(g, t, info)
    ensures if |g| > 0 then |t.nts| > 0 && t.nts[0] == g[0].head else |t.nts| == 0
  {
    var nts := CollectSymbols(g);
    var n := CountConfs(g, nts);
    info := AllConfs(nts, Rules(g));
    AllConfsOk(g, nts);
    var none: seq<seq<nat>> := seq(|nts|, _ => []);
    t := Tables(nts, none, none, none, seq(n, _ => 0));
    hide StepsOk, StartersOk, EndersOk, PredictorsOk, AllConfs, Rules;
    t := SeenConfs(t, info);
    t := AddRules(g, t, info);
  }
}
