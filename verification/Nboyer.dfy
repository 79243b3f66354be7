/**
  The nboyer theorem prover: lemmas filed under the head symbol of their left
  side, a rewriter that applies the first matching lemma, and a tautology
  checker for nested `if` terms.

  Rewriting may run forever, and fails on a lemma without a right side; so `Rewritten`
  takes the number of nested lemma applications it may still make, and may give nothing;
  every statement holds for every such number, that is, of every rewrite that returns.
*/
module Nboyer {
  import opened Wrappers
  import opened NboyerTerms
  import opened NboyerUnify

  /** A lemma; one that was filed without a right side makes a rewrite that applies it fail. */
  datatype Equation = Equation(lhs: Term, rhs: Option<Term>)

  datatype Match = Unmatched | Fails | Becomes(term: Term)

  /** The lemma list held in each symbol record, newest first. */
  type Table = map<string, seq<Equation>>

  function LemmasOf(table: Table, f: string): seq<Equation> {
    if f in table then table[f] else []
  }

  /** The right side, instantiated, of the first lemma whose left side matches. */
  function FirstMatch(lemmas: seq<Equation>, t: Term): Match {
    if lemmas == [] then Unmatched
    else
      var (ok, al) := Unify(t, lemmas[0].lhs, []);
      if !ok then FirstMatch(lemmas[1..], t)
      else if lemmas[0].rhs.None? then Fails
      else Becomes(ApplySubst(al, lemmas[0].rhs.value))
  }

  /** The rewritten term and the number of rewrite calls made, if `depth` applications suffice. */
  function Rewritten(table: Table, depth: nat, t: Term): Option<(Term, nat)>
    decreases depth, t, 1
  {
    match t
    case Leaf(_) => Some((t, 1))
    case App(f, args) =>
      match RewrittenList(table, depth, args)
      case None => None
      case Some((args', n)) =>
        match FirstMatch(LemmasOf(table, f), App(f, args'))
        case Unmatched => Some((App(f, args'), n + 1))
        case Fails => None
        case Becomes(next) =>
          if depth == 0 then None
          else
            match Rewritten(table, depth - 1, next)
            case None => None
            case Some((r, m)) => Some((r, n + 1 + m))
  }

  function RewrittenList(table: Table, depth: nat, ts: seq<Term>): Option<(seq<Term>, nat)>
    decreases depth, ts, 0
  {
    if ts == [] then Some(([], 0))
    else
      match Rewritten(table, depth, ts[0])
      case None => None
      case Some((t, n)) =>
        match RewrittenList(table, depth, ts[1..])
        case None => None
        case Some((rest, m)) => Some(([t] + rest, n + m))
  }

  /** Allowing more applications does not change what a rewrite that returns gives. */
  lemma {:induction false} RewriteDeterministic(table: Table, depth: nat, more: nat, t: Term)
    requires Rewritten(table, depth, t).Some? && depth <= more
    ensures Rewritten(table, more, t) == Rewritten(table, depth, t)
    decreases depth, t, 1
  {
    match t
    case Leaf(_) =>
    case App(f, args) =>
      RewriteDeterministicList(table, depth, more, args);
      var args' := RewrittenList(table, depth, args).value.0;
      match FirstMatch(LemmasOf(table, f), App(f, args'))
      case Unmatched =>
      case Becomes(next) => RewriteDeterministic(table, depth - 1, more - 1, next);
  }

  lemma {:induction false} RewriteDeterministicList(table: Table, depth: nat, more: nat, ts: seq<Term>)
    requires RewrittenList(table, depth, ts).Some? && depth <= more
    ensures RewrittenList(table, more, ts) == RewrittenList(table, depth, ts)
    decreases depth, ts, 0
  {
    if ts != [] {
      RewriteDeterministic(table, depth, more, ts[0]);
      RewriteDeterministicList(table, depth, more, ts[1..]);
    }
  }

  // ----- the prover's globals -----

  class Prover {
    var table: Table
    var unifySubst: Subst
    var rewriteCount: nat

    constructor ()
      ensures table == map[] && rewriteCount == 0
    {
      table := map[];
      unifySubst := [];
      rewriteCount := 0;
    }

    /** Files the lemma in front of the list of its head symbol, or reports the term that is no lemma. */
    method AddLemma(term: Term) returns (result: Result<(), Term>)
      modifies this`table
      ensures IsLemmaTerm(term) ==> result.Ok? && forall f ::
                LemmasOf(table, f) == (if f == term.args[0].head then [LemmaOf(term)] else []) + LemmasOf(old(table), f)
      ensures !IsLemmaTerm(term) ==> result == Err(term) && table == old(table)
    {
      if term.App? && term.head == "equal" && |term.args| >= 1 && term.args[0].App? {
        var head := term.args[0].head;
        var rhs := if |term.args| >= 2 then Some(term.args[1]) else None;
        table := table[head := [Equation(term.args[0], rhs)] + LemmasOf(table, head)];
        result := Ok(());
      } else {
        result := Err(term);
      }
    }

    method OneWayUnify1(term1: Term, term2: Term) returns (ok: bool)
      modifies this`unifySubst
      ensures (ok, unifySubst) == Unify(term1, term2, old(unifySubst))
      decreases term2
    {
      match term2 {
        case Leaf(a) =>
          var bound := Assq(a, unifySubst);
          if bound.Some? {
            return IsTermEqual(term1, bound.value);
          } else if a.Number? {
            return IsTermEqual(term1, term2);
          } else {
            unifySubst := [(a, term1)] + unifySubst;
            return true;
          }
        case App(f, args) =>
          if term1.Leaf? || term1.head != f {
            return false;
          }
          var lst1, lst2 := term1.args, args;
          while true
            invariant |lst2| <= |args| && lst2 == args[|args| - |lst2|..]
            invariant UnifyList(term1.args, args, old(unifySubst)) == UnifyList(lst1, lst2, unifySubst)
            decreases |lst2|
          {
            if lst1 == [] {
              return lst2 == [];
            } else if lst2 == [] {
              return false;
            }
            assert lst2[0] in args;
            var same := OneWayUnify1(lst1[0], lst2[0]);
            if !same {
              return false;
            }
            lst1, lst2 := lst1[1..], lst2[1..];
          }
      }
    }

    /** Rewrites arguments first, then tries the lemmas of the head symbol in order. */
    method Rewrite(term: Term, depth: nat) returns (r: Option<Term>)
      modifies this`unifySubst, this`rewriteCount
      ensures match Rewritten(table, depth, term)
              case None => r == None
              case Some((t, n)) => r == Some(t) && rewriteCount == old(rewriteCount) + n
      decreases depth, term, 1
    {
      rewriteCount := rewriteCount + 1;
      match term {
        case Leaf(_) => return Some(term);
        case App(f, args) =>
          var rewrittenArgs := RewriteArgs(args, depth);
          if rewrittenArgs == None {
            return None;
          }
          var term' := App(f, rewrittenArgs.value);
          var lst := LemmasOf(table, f);
          ghost var count := rewriteCount;
          while lst != []
            invariant rewriteCount == count
            invariant FirstMatch(LemmasOf(table, f), term') == FirstMatch(lst, term')
          {
            unifySubst := [];
            var ok := OneWayUnify1(term', lst[0].lhs);
            if ok {
              if lst[0].rhs.None? || depth == 0 {
                return None;
              }
              r := Rewrite(ApplySubst(unifySubst, lst[0].rhs.value), depth - 1);
              return;
            }
            lst := lst[1..];
          }
          return Some(term');
      }
    }

    method RewriteArgs(terms: seq<Term>, depth: nat) returns (r: Option<seq<Term>>)
      modifies this`unifySubst, this`rewriteCount
      ensures match RewrittenList(table, depth, terms)
              case None => r == None
              case Some((ts, n)) => r == Some(ts) && rewriteCount == old(rewriteCount) + n
      decreases depth, terms, 0
    {
      if terms == [] {
        return Some([]);
      }
      var first := Rewrite(terms[0], depth);
      if first == None {
        return None;
      }
      var rest := RewriteArgs(terms[1..], depth);
      return if rest == None then None else Some([first.value] + rest.value);
    }
  }

  predicate IsLemmaTerm(term: Term) {
    term.App? && term.head == "equal" && |term.args| >= 1 && term.args[0].App?
  }

  function LemmaOf(term: Term): Equation
    requires IsLemmaTerm(term)
  {
    Equation(term.args[0], if |term.args| >= 2 then Some(term.args[1]) else None)
  }

  // ----- the rewriter preserves meaning -----

  ghost predicate HoldsIn<D(!new)>(I: Interp<D>, eq: Equation) {
    eq.rhs.Some? ==> forall env: string -> D :: Eval(I, env, eq.lhs) == Eval(I, env, eq.rhs.value)
  }

  /** Every lemma of the table is an identity of the interpretation. */
  ghost predicate IsModel<D(!new)>(I: Interp<D>, table: Table) {
    forall f, eq :: f in table && eq in table[f] ==> HoldsIn(I, eq)
  }

  lemma {:induction false} FirstMatchSound<D(!new)>(I: Interp<D>, env: string -> D, lemmas: seq<Equation>, t: Term)
    requires forall eq :: eq in lemmas ==> HoldsIn(I, eq)
    requires FirstMatch(lemmas, t).Becomes?
    ensures Eval(I, env, FirstMatch(lemmas, t).term) == Eval(I, env, t)
  {
    var (ok, al) := Unify(t, lemmas[0].lhs, []);
    UnifyDecidesInstance(t, lemmas[0].lhs);
    if ok {
      assert HoldsIn(I, lemmas[0]);
      SubstitutionLemma(I, env, al, lemmas[0].lhs);
      SubstitutionLemma(I, env, al, lemmas[0].rhs.value);
    } else {
      FirstMatchSound(I, env, lemmas[1..], t);
    }
  }

  lemma {:induction false} RewriteSound<D(!new)>(I: Interp<D>, env: string -> D, table: Table, depth: nat, t: Term)
    requires IsModel(I, table)
    requires Rewritten(table, depth, t).Some?
    ensures Eval(I, env, Rewritten(table, depth, t).value.0) == Eval(I, env, t)
    decreases depth, t, 1
  {
    match t
    case Leaf(_) =>
    case App(f, args) =>
      RewriteSoundList(I, env, table, depth, args);
      var args' := RewrittenList(table, depth, args).value.0;
      match FirstMatch(LemmasOf(table, f), App(f, args'))
      case Unmatched =>
      case Becomes(next) =>
        FirstMatchSound(I, env, LemmasOf(table, f), App(f, args'));
        RewriteSound(I, env, table, depth - 1, next);
  }

  lemma {:induction false} RewriteSoundList<D(!new)>(I: Interp<D>, env: string -> D, table: Table, depth: nat, ts: seq<Term>)
    requires IsModel(I, table)
    requires RewrittenList(table, depth, ts).Some?
    ensures EvalList(I, env, RewrittenList(table, depth, ts).value.0) == EvalList(I, env, ts)
    decreases depth, ts, 0
  {
    if ts != [] {
      RewriteSound(I, env, table, depth, ts[0]);
      RewriteSoundList(I, env, table, depth, ts[1..]);
    }
  }

  // ----- the rewriter reaches normal forms -----

  /** No lemma matches the term or any term inside it. */
  ghost predicate IsNormal(table: Table, t: Term)
    decreases t
  {
    t.App? ==>
      && (forall eq :: eq in LemmasOf(table, t.head) ==> !IsInstance(t, eq.lhs))
      && (forall k :: 0 <= k < |t.args| ==> IsNormal(table, t.args[k]))
  }

  lemma {:induction false} FirstMatchExact(lemmas: seq<Equation>, t: Term)
    ensures FirstMatch(lemmas, t) == Unmatched <==> forall eq :: eq in lemmas ==> !IsInstance(t, eq.lhs)
  {
    if lemmas != [] {
      UnifyDecidesInstance(t, lemmas[0].lhs);
      FirstMatchExact(lemmas[1..], t);
    }
  }

  lemma {:induction false} RewriteNormal(table: Table, depth: nat, t: Term)
    requires Rewritten(table, depth, t).Some?
    ensures IsNormal(table, Rewritten(table, depth, t).value.0)
    decreases depth, t, 1
  {
    match t
    case Leaf(_) =>
    case App(f, args) =>
      RewriteNormalList(table, depth, args);
      var args' := RewrittenList(table, depth, args).value.0;
      FirstMatchExact(LemmasOf(table, f), App(f, args'));
      match FirstMatch(LemmasOf(table, f), App(f, args'))
      case Unmatched =>
      case Becomes(next) => RewriteNormal(table, depth - 1, next);
  }

  lemma {:induction false} RewriteNormalList(table: Table, depth: nat, ts: seq<Term>)
    requires RewrittenList(table, depth, ts).Some?
    ensures forall r :: r in RewrittenList(table, depth, ts).value.0 ==> IsNormal(table, r)
    decreases depth, ts, 0
  {
    if ts != [] {
      RewriteNormal(table, depth, ts[0]);
      RewriteNormalList(table, depth, ts[1..]);
    }
  }

  // ----- the tautology checker -----

  /** Throws stands for reading past the arguments of a malformed `if`. */
  datatype Verdict = Yes | No | Throws

  function Tautologyp(x: Term, trueLst: seq<Term>, falseLst: seq<Term>): Verdict
    decreases x
  {
    if IsTermEqual(x, TRUE_TERM) || IsTermMember(x, trueLst) then Yes
    else if IsTermEqual(x, FALSE_TERM) || IsTermMember(x, falseLst) then No
    else if x.Leaf? || x.head != "if" then No
    else if |x.args| == 0 then Throws
    else
      var c := x.args[0];
      if IsTermEqual(c, TRUE_TERM) || IsTermMember(c, trueLst) then
        if |x.args| < 2 then Throws else Tautologyp(x.args[1], trueLst, falseLst)
      else if IsTermEqual(c, FALSE_TERM) || IsTermMember(c, falseLst) then
        if |x.args| < 3 then Throws else Tautologyp(x.args[2], trueLst, falseLst)
      else if |x.args| < 2 then Throws
      else
        match Tautologyp(x.args[1], [c] + trueLst, falseLst)
        case Yes => if |x.args| < 3 then Throws else Tautologyp(x.args[2], trueLst, [c] + falseLst)
        case No => No
        case Throws => Throws
  }

  lemma {:induction false} TautologySound<D(!new)>(I: Interp<D>, env: string -> D, x: Term, trueLst: seq<Term>, falseLst: seq<Term>)
    requires BranchesOnTruth(I)
    requires forall y :: y in trueLst ==> !IsFalse(I, Eval(I, env, y))
    requires forall y :: y in falseLst ==> IsFalse(I, Eval(I, env, y))
    requires Tautologyp(x, trueLst, falseLst) == Yes
    ensures !IsFalse(I, Eval(I, env, x))
    decreases x
  {
    if x == TRUE_TERM {
      assert EvalList(I, env, []) == [];
    } else if x !in trueLst {
      var c, ds := x.args[0], EvalList(I, env, x.args);
      assert ds[0] == Eval(I, env, c);
      assert EvalList(I, env, []) == [];
      if IsFalse(I, ds[0]) {
        assert I.app("if", ds) == ds[2];
        TautologySound(I, env, x.args[2], trueLst, if c == FALSE_TERM || c in falseLst then falseLst else [c] + falseLst);
      } else {
        assert I.app("if", ds) == ds[1];
        TautologySound(I, env, x.args[1], if c == TRUE_TERM || c in trueLst then trueLst else [c] + trueLst, falseLst);
      }
    }
  }

  /** What the benchmark concludes: rewrite the conjecture, then check the result. */
  lemma ProverSound<D(!new)>(I: Interp<D>, table: Table, depth: nat, conjecture: Term)
    requires IsModel(I, table) && BranchesOnTruth(I)
    requires Rewritten(table, depth, conjecture).Some?
    requires Tautologyp(Rewritten(table, depth, conjecture).value.0, [], []) == Yes
    ensures forall env: string -> D :: !IsFalse(I, Eval(I, env, conjecture))
  {
    forall env: string -> D ensures !IsFalse(I, Eval(I, env, conjecture)) {
      RewriteSound(I, env, table, depth, conjecture);
      TautologySound(I, env, Rewritten(table, depth, conjecture).value.0, [], []);
    }
  }
}
