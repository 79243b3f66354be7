/**
  Grammars, token sequences and derivation trees.  A symbol derives the tokens
  from i to j when there is a derivation tree that says so.
*/
module EarleyGrammars {

  type Sym = string

  datatype Rule = Rule(head: Sym, body: seq<Sym>)

  /** One entry of a grammar: a head and the bodies of its rules. */
  datatype Def = Def(head: Sym, bodies: seq<seq<Sym>>)

  type Grammar = seq<Def>

  /** What the lexer gives for one token: the token and the symbols it may stand for. */
  datatype Token = Token(text: string, classes: seq<Sym>)

  function RulesOf(d: Def): seq<Rule> {
    seq(|d.bodies|, i requires 0 <= i < |d.bodies| => Rule(d.head, d.bodies[i]))
  }

  function Rules(g: Grammar): seq<Rule> {
    if g == [] then [] else Rules(g[..|g| - 1]) + RulesOf(g[|g| - 1])
  }

  datatype Tree = Terminal | Node(rule: Rule, kids: Forest)
  datatype Forest = Nil | Snoc(init: Forest, last: Tree)

  /** The tree derives the tokens from i to j from the symbol. */
  ghost predicate Derivation(g: Grammar, toks: seq<Token>, t: Tree, s: Sym, i: nat, j: nat)
    decreases t
  {
    match t
    case Terminal => i < |toks| && j == i + 1 && s in toks[i].classes
    case Node(rule, kids) => rule in Rules(g) && rule.head == s && Derivations(g, toks, kids, rule.body, i, j)
  }

  ghost predicate Derivations(g: Grammar, toks: seq<Token>, f: Forest, ss: seq<Sym>, i: nat, j: nat)
    decreases f
  {
    match f
    case Nil => ss == [] && i == j
    case Snoc(init, last) =>
      |ss| > 0 &&
      var first, end := ss[..|ss| - 1], ss[|ss| - 1];
      exists k: nat :: i <= k <= j && Derivations(g, toks, init, first, i, k) && Derivation(g, toks, last, end, k, j)
  }

  ghost predicate Derives(g: Grammar, toks: seq<Token>, s: Sym, i: nat, j: nat) {
    exists t :: Derivation(g, toks, t, s, i, j)
  }

  ghost predicate DerivesAll(g: Grammar, toks: seq<Token>, ss: seq<Sym>, i: nat, j: nat) {
    exists f :: Derivations(g, toks, f, ss, i, j)
  }

  lemma DerivesNothing(g: Grammar, toks: seq<Token>, i: nat)
    ensures DerivesAll(g, toks, [], i, i)
  {
    assert Derivations(g, toks, Nil, [], i, i);
  }

  lemma DerivesToken(g: Grammar, toks: seq<Token>, s: Sym, i: nat)
    requires i < |toks| && s in toks[i].classes
    ensures Derives(g, toks, s, i, i + 1)
  {
    assert Derivation(g, toks, Terminal, s, i, i + 1);
  }

  lemma DerivesMore(g: Grammar, toks: seq<Token>, ss: seq<Sym>, s: Sym, i: nat, k: nat, j: nat)
    requires i <= k <= j && DerivesAll(g, toks, ss, i, k) && Derives(g, toks, s, k, j)
    ensures DerivesAll(g, toks, ss + [s], i, j)
  {
    var f :| Derivations(g, toks, f, ss, i, k);
    var t :| Derivation(g, toks, t, s, k, j);
    assert (ss + [s])[..|ss|] == ss;
    assert Derivations(g, toks, Snoc(f, t), ss + [s], i, j);
  }

  lemma DerivesRule(g: Grammar, toks: seq<Token>, rule: Rule, i: nat, j: nat)
    requires rule in Rules(g) && DerivesAll(g, toks, rule.body, i, j)
    ensures Derives(g, toks, rule.head, i, j)
  {
    var f :| Derivations(g, toks, f, rule.body, i, j);
    assert Derivation(g, toks, Node(rule, f), rule.head, i, j);
  }
}
