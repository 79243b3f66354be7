/**
  Terms of the nboyer prover, substitutions as association lists, and what a
  term means in an interpretation.

  A translated term is an atom or a symbol record applied to arguments.  The
  symbol table holds one record per symbol, so comparing records by identity is
  comparing symbols.
*/
module NboyerTerms {
  import opened Wrappers

  datatype Atom = Number(n: int) | Symbol(name: string)

  datatype Term = Leaf(atom: Atom) | App(head: string, args: seq<Term>)

  /** An association list, newest binding first. */
  type Subst = seq<(Atom, Term)>

  const TRUE_TERM := App("t", [])
  const FALSE_TERM := App("f", [])

  function Assq(a: Atom, al: Subst): Option<Term> {
    if al == [] then None
    else if al[0].0 == a then Some(al[0].1)
    else Assq(a, al[1..])
  }

  function Lookup(al: Subst, a: Atom): Term {
    match Assq(a, al)
    case Some(t) => t
    case None => Leaf(a)
  }

  function ApplySubst(al: Subst, t: Term): Term
    decreases t
  {
    match t
    case Leaf(a) => Lookup(al, a)
    case App(f, args) => App(f, ApplySubstList(al, args))
  }

  function ApplySubstList(al: Subst, ts: seq<Term>): (r: seq<Term>)
    ensures |r| == |ts|
    decreases ts
  {
    if ts == [] then [] else [ApplySubst(al, ts[0])] + ApplySubstList(al, ts[1..])
  }

  /** No number is bound, so the substitution leaves numbers alone. */
  ghost predicate NumbersFixed(al: Subst) {
    forall n :: Assq(Number(n), al) == None
  }

  /** The comparison of the source decides equality of terms. */
  function IsTermEqual(x: Term, y: Term): (r: bool)
    ensures r <==> x == y
    decreases x
  {
    match x
    case Leaf(a) => y == Leaf(a)
    case App(f, xs) => y.App? && f == y.head && IsTermListEqual(xs, y.args)
  }

  function IsTermListEqual(xs: seq<Term>, ys: seq<Term>): (r: bool)
    ensures r <==> xs == ys
    decreases xs
  {
    if xs == [] then ys == []
    else if ys == [] then false
    else
      assert xs == [xs[0]] + xs[1..] && ys == [ys[0]] + ys[1..];
      IsTermEqual(xs[0], ys[0]) && IsTermListEqual(xs[1..], ys[1..])
  }

  function IsTermMember(x: Term, ts: seq<Term>): (r: bool)
    ensures r <==> x in ts
  {
    if ts == [] then false else IsTermEqual(x, ts[0]) || IsTermMember(x, ts[1..])
  }

  // ----- meaning -----

  /** Numbers and function symbols over a domain D. */
  datatype Interp<!D> = Interp(num: int -> D, app: (string, seq<D>) -> D)

  function Eval<D>(I: Interp<D>, env: string -> D, t: Term): D
    decreases t
  {
    match t
    case Leaf(Number(n)) => I.num(n)
    case Leaf(Symbol(x)) => env(x)
    case App(f, args) => I.app(f, EvalList(I, env, args))
  }

  function EvalList<D>(I: Interp<D>, env: string -> D, ts: seq<Term>): (r: seq<D>)
    ensures |r| == |ts|
    ensures forall k :: 0 <= k < |ts| ==> r[k] == Eval(I, env, ts[k])
    decreases ts
  {
    if ts == [] then [] else [Eval(I, env, ts[0])] + EvalList(I, env, ts[1..])
  }

  /** The assignment that a substitution induces. */
  function After<D>(I: Interp<D>, env: string -> D, al: Subst): string -> D {
    x => Eval(I, env, Lookup(al, Symbol(x)))
  }

  /** Substituting and then evaluating is evaluating under the induced assignment. */
  lemma {:induction false} SubstitutionLemma<D>(I: Interp<D>, env: string -> D, al: Subst, t: Term)
    requires NumbersFixed(al)
    ensures Eval(I, env, ApplySubst(al, t)) == Eval(I, After(I, env, al), t)
    decreases t
  {
    match t
    case Leaf(_) =>
    case App(_, args) => SubstitutionLemmaList(I, env, al, args);
  }

  lemma {:induction false} SubstitutionLemmaList<D>(I: Interp<D>, env: string -> D, al: Subst, ts: seq<Term>)
    requires NumbersFixed(al)
    ensures EvalList(I, env, ApplySubstList(al, ts)) == EvalList(I, After(I, env, al), ts)
    decreases ts
  {
    if ts != [] {
      SubstitutionLemma(I, env, al, ts[0]);
      SubstitutionLemmaList(I, env, al, ts[1..]);
    }
  }

  ghost predicate IsFalse<D>(I: Interp<D>, d: D) {
    d == I.app("f", [])
  }

  /** `(t)` is not false, and `if` picks its branch by whether its first argument is false. */
  ghost predicate BranchesOnTruth<D(!new)>(I: Interp<D>) {
    && !IsFalse(I, I.app("t", []))
    && (forall ds: seq<D> :: |ds| >= 2 && !IsFalse(I, ds[0]) ==> I.app("if", ds) == ds[1])
    && (forall ds: seq<D> :: |ds| >= 3 && IsFalse(I, ds[0]) ==> I.app("if", ds) == ds[2])
  }
}
