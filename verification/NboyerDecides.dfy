/**
  The tautology checker decides: on a term whose `if` conditions hold no further
  `if` it answers Yes exactly when the term is propositionally valid, and the
  rewriter delivers such terms once the lemma that distributes `if` over the
  condition of an `if` is filed.
*/
module NboyerDecides {
  import opened Wrappers
  import opened NboyerTerms
  import opened NboyerUnify
  import opened Nboyer

  predicate IsIf(t: Term) {
    t.App? && t.head == "if"
  }

  /** Every `if` has three arguments. */
  ghost predicate IfArity(t: Term)
    decreases t
  {
    t.App? ==>
      && (t.head == "if" ==> |t.args| == 3)
      && (forall k :: 0 <= k < |t.args| ==> IfArity(t.args[k]))
  }

  /** An `if` tree: three arguments each, no `if` as a condition. */
  ghost predicate IfTree(t: Term)
    decreases t
  {
    IsIf(t) ==> |t.args| == 3 && !IsIf(t.args[0]) && IfTree(t.args[1]) && IfTree(t.args[2])
  }

  /** Propositional value: terms other than `if`, `(t)` and `(f)` are independent propositions. */
  ghost predicate Holds(v: Term -> bool, t: Term)
    decreases t
  {
    if t == TRUE_TERM then true
    else if t == FALSE_TERM then false
    else if IsIf(t) && |t.args| == 3 then
      if Holds(v, t.args[0]) then Holds(v, t.args[1]) else Holds(v, t.args[2])
    else v(t)
  }

  /** The two lists hold distinct propositions. */
  ghost predicate Consistent(trueLst: seq<Term>, falseLst: seq<Term>) {
    && (forall y :: y in trueLst ==> !IsIf(y) && y != FALSE_TERM && y !in falseLst)
    && (forall y :: y in falseLst ==> !IsIf(y) && y != TRUE_TERM)
  }

  ghost predicate Respects(v: Term -> bool, trueLst: seq<Term>, falseLst: seq<Term>) {
    && (forall y :: y in trueLst ==> Holds(v, y))
    && (forall y :: y in falseLst ==> !Holds(v, y))
  }

  lemma {:induction false} YesIsValid(v: Term -> bool, x: Term, trueLst: seq<Term>, falseLst: seq<Term>)
    requires IfTree(x) && Respects(v, trueLst, falseLst)
    requires Tautologyp(x, trueLst, falseLst) == Yes
    ensures Holds(v, x)
    decreases x
  {
    if x != TRUE_TERM && x !in trueLst {
      var c := x.args[0];
      if Holds(v, c) {
        YesIsValid(v, x.args[1], if c == TRUE_TERM || c in trueLst then trueLst else [c] + trueLst, falseLst);
      } else {
        YesIsValid(v, x.args[2], trueLst, if c == FALSE_TERM || c in falseLst then falseLst else [c] + falseLst);
      }
    }
  }

  /** A refusal comes with a valuation under which the term fails. */
  lemma {:induction false} NoIsRefuted(x: Term, trueLst: seq<Term>, falseLst: seq<Term>) returns (v: Term -> bool)
    requires IfTree(x) && Consistent(trueLst, falseLst)
    requires Tautologyp(x, trueLst, falseLst) != Yes
    ensures Tautologyp(x, trueLst, falseLst) == No
    ensures Respects(v, trueLst, falseLst) && !Holds(v, x)
    decreases x
  {
    if !IsIf(x) {
      v := y => y in trueLst;
    } else {
      var c := x.args[0];
      if c == TRUE_TERM || c in trueLst {
        v := NoIsRefuted(x.args[1], trueLst, falseLst);
      } else if c == FALSE_TERM || c in falseLst {
        v := NoIsRefuted(x.args[2], trueLst, falseLst);
      } else if Tautologyp(x.args[1], [c] + trueLst, falseLst) != Yes {
        v := NoIsRefuted(x.args[1], [c] + trueLst, falseLst);
      } else {
        v := NoIsRefuted(x.args[2], trueLst, [c] + falseLst);
      }
    }
  }

  lemma TautologypDecides(x: Term)
    requires IfTree(x)
    ensures Tautologyp(x, [], []) == Yes <==> forall v: Term -> bool :: Holds(v, x)
    ensures Tautologyp(x, [], []) != Throws
  {
    if Tautologyp(x, [], []) == Yes {
      forall v: Term -> bool ensures Holds(v, x) {
        YesIsValid(v, x, [], []);
      }
    } else {
      var v := NoIsRefuted(x, [], []);
    }
  }

  // ----- the rewriter produces `if` trees -----

  const IF_OF_IF := Equation(
    App("if", [App("if", [Leaf(Symbol("a")), Leaf(Symbol("b")), Leaf(Symbol("c"))]), Leaf(Symbol("d")), Leaf(Symbol("e"))]),
    Some(App("if", [Leaf(Symbol("a")),
                    App("if", [Leaf(Symbol("b")), Leaf(Symbol("d")), Leaf(Symbol("e"))]),
                    App("if", [Leaf(Symbol("c")), Leaf(Symbol("d")), Leaf(Symbol("e"))])])))

  /** The right sides of all lemmas give every `if` three arguments. */
  ghost predicate TableIfArity(table: Table) {
    forall f, eq :: f in table && eq in table[f] && eq.rhs.Some? ==> IfArity(eq.rhs.value)
  }

  ghost predicate SubstIfArity(al: Subst) {
    forall a :: Assq(a, al).Some? ==> IfArity(Assq(a, al).value)
  }

  lemma {:induction false} ApplyIfArity(al: Subst, t: Term)
    requires SubstIfArity(al) && IfArity(t)
    ensures IfArity(ApplySubst(al, t))
    decreases t
  {
    match t
    case Leaf(_) =>
    case App(_, args) => ApplyIfArityList(al, args);
  }

  lemma {:induction false} ApplyIfArityList(al: Subst, ts: seq<Term>)
    requires SubstIfArity(al) && forall k :: 0 <= k < |ts| ==> IfArity(ts[k])
    ensures forall k :: 0 <= k < |ts| ==> IfArity(ApplySubstList(al, ts)[k])
    decreases ts
  {
    if ts != [] {
      ApplyIfArity(al, ts[0]);
      ApplyIfArityList(al, ts[1..]);
    }
  }

  lemma {:induction false} UnifyIfArity(t1: Term, t2: Term, al: Subst)
    requires IfArity(t1) && SubstIfArity(al)
    ensures SubstIfArity(Unify(t1, t2, al).1)
    decreases t2
  {
    match t2
    case Leaf(a) =>
      forall b ensures Assq(b, Unify(t1, t2, al).1).Some? ==> IfArity(Assq(b, Unify(t1, t2, al).1).value) {
        AssqCons(a, t1, al, b);
      }
    case App(f, args) =>
      if t1.App? && t1.head == f {
        UnifyIfArityList(t1.args, args, al);
      }
  }

  lemma {:induction false} UnifyIfArityList(ts1: seq<Term>, ts2: seq<Term>, al: Subst)
    requires (forall k :: 0 <= k < |ts1| ==> IfArity(ts1[k])) && SubstIfArity(al)
    ensures SubstIfArity(UnifyList(ts1, ts2, al).1)
    decreases ts2
  {
    if ts1 != [] && ts2 != [] {
      UnifyIfArity(ts1[0], ts2[0], al);
      var (ok, al') := Unify(ts1[0], ts2[0], al);
      if ok {
        UnifyIfArityList(ts1[1..], ts2[1..], al');
      }
    }
  }

  lemma {:induction false} FirstMatchIfArity(lemmas: seq<Equation>, t: Term)
    requires IfArity(t) && forall eq :: eq in lemmas && eq.rhs.Some? ==> IfArity(eq.rhs.value)
    requires FirstMatch(lemmas, t).Becomes?
    ensures IfArity(FirstMatch(lemmas, t).term)
  {
    var (ok, al) := Unify(t, lemmas[0].lhs, []);
    UnifyIfArity(t, lemmas[0].lhs, []);
    if ok {
      assert lemmas[0] in lemmas;
      ApplyIfArity(al, lemmas[0].rhs.value);
    } else {
      FirstMatchIfArity(lemmas[1..], t);
    }
  }

  lemma {:induction false} RewriteIfArity(table: Table, depth: nat, t: Term)
    requires TableIfArity(table) && IfArity(t)
    requires Rewritten(table, depth, t).Some?
    ensures IfArity(Rewritten(table, depth, t).value.0)
    decreases depth, t, 1
  {
    match t
    case Leaf(_) =>
    case App(f, args) =>
      RewriteIfArityList(table, depth, args);
      var args' := RewrittenList(table, depth, args).value.0;
      match FirstMatch(LemmasOf(table, f), App(f, args'))
      case Unmatched =>
      case Becomes(next) =>
        FirstMatchIfArity(LemmasOf(table, f), App(f, args'));
        RewriteIfArity(table, depth - 1, next);
  }

  lemma {:induction false} RewriteIfArityList(table: Table, depth: nat, ts: seq<Term>)
    requires TableIfArity(table) && forall k :: 0 <= k < |ts| ==> IfArity(ts[k])
    requires RewrittenList(table, depth, ts).Some?
    ensures |RewrittenList(table, depth, ts).value.0| == |ts|
    ensures forall k :: 0 <= k < |ts| ==> IfArity(RewrittenList(table, depth, ts).value.0[k])
    decreases depth, ts, 0
  {
    if ts != [] {
      RewriteIfArity(table, depth, ts[0]);
      RewriteIfArityList(table, depth, ts[1..]);
    }
  }

  /** An `if` whose condition is an `if` is a redex of IF_OF_IF. */
  lemma IfOfIfMatches(t: Term)
    requires IsIf(t) && |t.args| == 3 && IsIf(t.args[0]) && |t.args[0].args| == 3
    ensures IsInstance(t, IF_OF_IF.lhs)
  {
    var c := t.args[0].args;
    var s1: Subst := [(Symbol("e"), t.args[2])] + [];
    var s2 := [(Symbol("d"), t.args[1])] + s1;
    var s3 := [(Symbol("c"), c[2])] + s2;
    var s4 := [(Symbol("b"), c[1])] + s3;
    var sigma := [(Symbol("a"), c[0])] + s4;
    forall x: Atom
      ensures Lookup(sigma, x) == (
        if x == Symbol("a") then c[0] else if x == Symbol("b") then c[1] else if x == Symbol("c") then c[2]
        else if x == Symbol("d") then t.args[1] else if x == Symbol("e") then t.args[2] else Leaf(x))
      ensures x.Number? ==> Assq(x, sigma) == None
    {
      AssqCons(Symbol("e"), t.args[2], [], x);
      AssqCons(Symbol("d"), t.args[1], s1, x);
      AssqCons(Symbol("c"), c[2], s2, x);
      AssqCons(Symbol("b"), c[1], s3, x);
      AssqCons(Symbol("a"), c[0], s4, x);
    }
    var p := IF_OF_IF.lhs.args;
    ApplyThree(sigma, p[0].args);
    assert ApplySubstList(sigma, p[0].args) == c;
    ApplyThree(sigma, p);
    assert ApplySubstList(sigma, p) == t.args;
    assert ApplySubst(sigma, IF_OF_IF.lhs) == t;
  }

  lemma ApplyThree(sigma: Subst, ts: seq<Term>)
    requires |ts| == 3
    ensures ApplySubstList(sigma, ts) == [ApplySubst(sigma, ts[0]), ApplySubst(sigma, ts[1]), ApplySubst(sigma, ts[2])]
  {
    assert ApplySubstList(sigma, ts[1..][1..][1..]) == [];
    assert ApplySubstList(sigma, ts[1..][1..]) == [ApplySubst(sigma, ts[2])];
    assert ApplySubstList(sigma, ts[1..]) == [ApplySubst(sigma, ts[1]), ApplySubst(sigma, ts[2])];
  }

  lemma {:induction false} NormalIsIfTree(table: Table, t: Term)
    requires IF_OF_IF in LemmasOf(table, "if")
    requires IsNormal(table, t) && IfArity(t)
    ensures IfTree(t)
    decreases t
  {
    if IsIf(t) {
      assert IfArity(t.args[0]);
      if IsIf(t.args[0]) {
        IfOfIfMatches(t);
      }
      NormalIsIfTree(table, t.args[1]);
      NormalIsIfTree(table, t.args[2]);
    }
  }

  /** End to end: with IF_OF_IF filed, a rewrite that returns leaves a term the checker decides. */
  lemma ProverDecides(table: Table, depth: nat, conjecture: Term)
    requires IF_OF_IF in LemmasOf(table, "if")
    requires TableIfArity(table) && IfArity(conjecture)
    requires Rewritten(table, depth, conjecture).Some?
    ensures var r := Rewritten(table, depth, conjecture).value.0;
      && Tautologyp(r, [], []) != Throws
      && (Tautologyp(r, [], []) == Yes <==> forall v: Term -> bool :: Holds(v, r))
  {
    var r := Rewritten(table, depth, conjecture).value.0;
    RewriteNormal(table, depth, conjecture);
    RewriteIfArity(table, depth, conjecture);
    NormalIsIfTree(table, r);
    TautologypDecides(r);
  }
}
