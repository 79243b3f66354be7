/**
  What a rewrite is, without the rewriter: a trace says for each call which term it was
  made for, what became of the arguments, and which lemma was applied then, if any.
  The rewriter gives a term and a count exactly when there is a trace of that term with
  as many calls.
*/
module NboyerTraces {
  import opened Wrappers
  import opened NboyerTerms
  import opened NboyerUnify
  import opened Nboyer

  // ----- which lemma applies -----

  /** The substitution sends the left side to the term and binds no more than it must. */
  ghost predicate LeastMatch(t: Term, lhs: Term, sigma: Subst) {
    && NumbersFixed(sigma) && ApplySubst(sigma, lhs) == t
    && forall tau: Subst :: NumbersFixed(tau) && ApplySubst(tau, lhs) == t ==> Agrees(tau, sigma)
  }

  /** Lemma k is the first one of which the term is an instance. */
  ghost predicate IsFirst(lemmas: seq<Equation>, t: Term, k: nat) {
    && k < |lemmas| && IsInstance(t, lemmas[k].lhs)
    && forall j :: 0 <= j < k ==> !IsInstance(t, lemmas[j].lhs)
  }

  /** Of all lemmas that match, the one nearest to the front is applied; without a right side it fails. */
  lemma {:induction false} FirstMatchChoice(lemmas: seq<Equation>, t: Term)
    ensures FirstMatch(lemmas, t) != Unmatched <==> exists k: nat :: IsFirst(lemmas, t, k)
    ensures forall k: nat :: IsFirst(lemmas, t, k) ==>
              match lemmas[k].rhs
              case None => FirstMatch(lemmas, t) == Fails
              case Some(rhs) => exists sigma: Subst :: LeastMatch(t, lemmas[k].lhs, sigma) && FirstMatch(lemmas, t) == Becomes(ApplySubst(sigma, rhs))
  {
    if lemmas != [] {
      var (ok, al) := Unify(t, lemmas[0].lhs, []);
      UnifyDecidesInstance(t, lemmas[0].lhs);
      if ok {
        assert LeastMatch(t, lemmas[0].lhs, al);
        assert IsFirst(lemmas, t, 0);
      } else {
        FirstMatchChoice(lemmas[1..], t);
        FirstLater(lemmas, t);
      }
    }
  }

  lemma FirstLater(lemmas: seq<Equation>, t: Term)
    requires lemmas != [] && !IsInstance(t, lemmas[0].lhs)
    ensures forall k: nat :: IsFirst(lemmas, t, k) <==> k > 0 && IsFirst(lemmas[1..], t, k - 1)
    ensures (exists k: nat :: IsFirst(lemmas, t, k)) <==> exists k: nat :: IsFirst(lemmas[1..], t, k)
  {
    forall k: nat | IsFirst(lemmas[1..], t, k) ensures IsFirst(lemmas, t, k + 1) {
    }
    hide IsInstance;
  }

  /** Least matches differ in nothing that counts. */
  lemma LeastUnique(t: Term, lhs: Term, sigma: Subst, tau: Subst, rhs: Term)
    requires LeastMatch(t, lhs, sigma) && LeastMatch(t, lhs, tau)
    ensures ApplySubst(sigma, rhs) == ApplySubst(tau, rhs)
  {
    forall a ensures Lookup(sigma, a) == Lookup(tau, a) {
      assert Agrees(sigma, tau) && Agrees(tau, sigma);
    }
    hide Agrees, Lookup;
    SameLookup(sigma, tau, rhs);
  }

  lemma {:induction false} SameLookup(sigma: Subst, tau: Subst, t: Term)
    requires forall a :: Lookup(sigma, a) == Lookup(tau, a)
    ensures ApplySubst(sigma, t) == ApplySubst(tau, t)
    decreases t
  {
    match t
    case Leaf(_) =>
    case App(_, args) => SameLookups(sigma, tau, args);
  }

  lemma {:induction false} SameLookups(sigma: Subst, tau: Subst, ts: seq<Term>)
    requires forall a :: Lookup(sigma, a) == Lookup(tau, a)
    ensures ApplySubstList(sigma, ts) == ApplySubstList(tau, ts)
    decreases ts
  {
    if ts != [] {
      SameLookup(sigma, tau, ts[0]);
      SameLookups(sigma, tau, ts[1..]);
    }
  }

  // ----- traces -----

  /** A call for a term: the calls for its arguments, and the application of a lemma with the call that goes on. */
  datatype Trace = Trace(term: Term, args: seq<Trace>, step: Option<Application>)

  datatype Application = Application(k: nat, sigma: Subst, next: Trace)

  /** The term a call returns. */
  function Result(tr: Trace): Term
    decreases tr
  {
    match tr.step
    case Some(a) => Result(a.next)
    case None => if tr.term.Leaf? then tr.term else App(tr.term.head, Results(tr.args))
  }

  function Results(trs: seq<Trace>): (r: seq<Term>)
    ensures |r| == |trs|
    decreases trs
  {
    if trs == [] then [] else [Result(trs[0])] + Results(trs[1..])
  }

  /** The number of calls. */
  function Calls(tr: Trace): nat
    decreases tr
  {
    1 + AllCalls(tr.args) + match tr.step case None => 0 case Some(a) => Calls(a.next)
  }

  function AllCalls(trs: seq<Trace>): nat
    decreases trs
  {
    if trs == [] then 0 else Calls(trs[0]) + AllCalls(trs[1..])
  }

  /** No more than this many applications are nested. */
  predicate Within(tr: Trace, depth: nat)
    decreases tr
  {
    && AllWithin(tr.args, depth)
    && match tr.step case None => true case Some(a) => depth > 0 && Within(a.next, depth - 1)
  }

  predicate AllWithin(trs: seq<Trace>, depth: nat)
    decreases trs
  {
    trs == [] || (Within(trs[0], depth) && AllWithin(trs[1..], depth))
  }

  /** The trace is one of a rewrite with these lemmas. */
  ghost predicate IsTrace(table: Table, tr: Trace)
    decreases tr
  {
    match tr.term
    case Leaf(_) => tr.args == [] && tr.step == None
    case App(f, args) =>
      && AreTraces(table, tr.args, args)
      && var lemmas, t := LemmasOf(table, f), App(f, Results(tr.args));
         match tr.step
         case None => forall k: nat :: !IsFirst(lemmas, t, k)
         case Some(a) =>
           && IsFirst(lemmas, t, a.k) && LeastMatch(t, lemmas[a.k].lhs, a.sigma)
           && lemmas[a.k].rhs.Some? && a.next.term == ApplySubst(a.sigma, lemmas[a.k].rhs.value)
           && IsTrace(table, a.next)
  }

  ghost predicate AreTraces(table: Table, trs: seq<Trace>, ts: seq<Term>)
    decreases trs
  {
    if trs == [] then ts == []
    else ts != [] && trs[0].term == ts[0] && IsTrace(table, trs[0]) && AreTraces(table, trs[1..], ts[1..])
  }

  // ----- the rewriter finds exactly the traces -----

  lemma {:induction false} RewriteHasTrace(table: Table, depth: nat, t: Term) returns (tr: Trace)
    requires Rewritten(table, depth, t).Some?
    ensures IsTrace(table, tr) && tr.term == t && Within(tr, depth)
    ensures Rewritten(table, depth, t) == Some((Result(tr), Calls(tr)))
    decreases depth, t, 1
  {
    match t
    case Leaf(_) =>
      tr := Trace(t, [], None);
    case App(f, args) =>
      var trs := RewritesHaveTraces(table, depth, args);
      var lemmas, t' := LemmasOf(table, f), App(f, Results(trs));
      FirstMatchChoice(lemmas, t');
      hide FirstMatch, IsFirst, LeastMatch, ApplySubst;
      match FirstMatch(lemmas, t')
      case Unmatched =>
        tr := Trace(t, trs, None);
      case Becomes(next) =>
        var k: nat :| IsFirst(lemmas, t', k);
        var sigma: Subst :| LeastMatch(t', lemmas[k].lhs, sigma) && next == ApplySubst(sigma, lemmas[k].rhs.value);
        var rest := RewriteHasTrace(table, depth - 1, next);
        tr := Trace(t, trs, Some(Application(k, sigma, rest)));
  }

  lemma {:induction false} RewritesHaveTraces(table: Table, depth: nat, ts: seq<Term>) returns (trs: seq<Trace>)
    requires RewrittenList(table, depth, ts).Some?
    ensures AreTraces(table, trs, ts) && AllWithin(trs, depth)
    ensures RewrittenList(table, depth, ts) == Some((Results(trs), AllCalls(trs)))
    decreases depth, ts, 0
  {
    if ts == [] {
      trs := [];
    } else {
      var tr := RewriteHasTrace(table, depth, ts[0]);
      var rest := RewritesHaveTraces(table, depth, ts[1..]);
      trs := [tr] + rest;
      assert trs[1..] == rest;
    }
  }

  lemma {:induction false} TraceIsRewrite(table: Table, depth: nat, tr: Trace)
    requires IsTrace(table, tr) && Within(tr, depth)
    ensures Rewritten(table, depth, tr.term) == Some((Result(tr), Calls(tr)))
    decreases tr
  {
    match tr.term
    case Leaf(_) =>
    case App(f, args) =>
      var lemmas, t := LemmasOf(table, f), App(f, Results(tr.args));
      hide FirstMatch, IsFirst, LeastMatch, ApplySubst, Rewritten, RewrittenList;
      TracesAreRewrites(table, depth, tr.args, args);
      RewriteStep(table, depth, f, args, Results(tr.args), AllCalls(tr.args));
      match tr.step
      case None =>
        NoneFirst(lemmas, t);
      case Some(a) =>
        FirstApplied(lemmas, t, a.k, a.sigma);
        TraceIsRewrite(table, depth - 1, a.next);
  }

  /** What the arguments and the first lemma make of an application. */
  lemma RewriteStep(table: Table, depth: nat, f: string, args: seq<Term>, ts: seq<Term>, n: nat)
    requires RewrittenList(table, depth, args) == Some((ts, n))
    ensures var t := App(f, ts);
            match FirstMatch(LemmasOf(table, f), t)
            case Unmatched => Rewritten(table, depth, App(f, args)) == Some((t, n + 1))
            case Fails => Rewritten(table, depth, App(f, args)) == None
            case Becomes(next) =>
              depth > 0 && Rewritten(table, depth - 1, next).Some? ==>
                var (r, m) := Rewritten(table, depth - 1, next).value; Rewritten(table, depth, App(f, args)) == Some((r, n + 1 + m))
  {
    hide FirstMatch;
  }

  lemma NoneFirst(lemmas: seq<Equation>, t: Term)
    requires forall k: nat :: !IsFirst(lemmas, t, k)
    ensures FirstMatch(lemmas, t) == Unmatched
  {
    FirstMatchChoice(lemmas, t);
    hide *;
  }

  lemma FirstApplied(lemmas: seq<Equation>, t: Term, k: nat, sigma: Subst)
    requires IsFirst(lemmas, t, k) && LeastMatch(t, lemmas[k].lhs, sigma) && lemmas[k].rhs.Some?
    ensures FirstMatch(lemmas, t) == Becomes(ApplySubst(sigma, lemmas[k].rhs.value))
  {
    FirstMatchChoice(lemmas, t);
    hide FirstMatch, LeastMatch, ApplySubst, IsInstance;
    var tau: Subst :| LeastMatch(t, lemmas[k].lhs, tau) && FirstMatch(lemmas, t) == Becomes(ApplySubst(tau, lemmas[k].rhs.value));
    LeastUnique(t, lemmas[k].lhs, tau, sigma, lemmas[k].rhs.value);
  }

  lemma {:induction false} TracesAreRewrites(table: Table, depth: nat, trs: seq<Trace>, ts: seq<Term>)
    requires AreTraces(table, trs, ts) && AllWithin(trs, depth)
    ensures RewrittenList(table, depth, ts) == Some((Results(trs), AllCalls(trs)))
    decreases trs
  {
    if trs != [] {
      TraceIsRewrite(table, depth, trs[0]);
      TracesAreRewrites(table, depth, trs[1..], ts[1..]);
    }
  }

  /** A rewrite gives this term and this count if and only if a trace of its term does. */
  lemma RewriteExact(table: Table, depth: nat, t: Term, r: Term, n: nat)
    ensures Rewritten(table, depth, t) == Some((r, n)) <==>
            exists tr :: IsTrace(table, tr) && tr.term == t && Within(tr, depth) && Result(tr) == r && Calls(tr) == n
  {
    if Rewritten(table, depth, t) == Some((r, n)) {
      var tr := RewriteHasTrace(table, depth, t);
    }
    forall tr | IsTrace(table, tr) && tr.term == t && Within(tr, depth) && Result(tr) == r && Calls(tr) == n
      ensures Rewritten(table, depth, t) == Some((r, n))
    {
      TraceIsRewrite(table, depth, tr);
    }
    hide *;
  }

  // ----- terms that are normal already -----

  /** Atoms and applications in a term. */
  function Size(t: Term): nat
    decreases t
  {
    match t
    case Leaf(_) => 1
    case App(_, args) => 1 + Sizes(args)
  }

  function Sizes(ts: seq<Term>): nat
    decreases ts
  {
    if ts == [] then 0 else Size(ts[0]) + Sizes(ts[1..])
  }

  /** A normal term stays, and each of its parts, leaves too, is one call. */
  lemma {:induction false} NormalCount(table: Table, depth: nat, t: Term)
    requires IsNormal(table, t)
    ensures Rewritten(table, depth, t) == Some((t, Size(t)))
    decreases t
  {
    match t
    case Leaf(_) =>
    case App(f, args) =>
      NormalCounts(table, depth, args);
      FirstMatchExact(LemmasOf(table, f), t);
  }

  lemma {:induction false} NormalCounts(table: Table, depth: nat, ts: seq<Term>)
    requires forall i :: 0 <= i < |ts| ==> IsNormal(table, ts[i])
    ensures RewrittenList(table, depth, ts) == Some((ts, Sizes(ts)))
    decreases ts
  {
    if ts != [] {
      NormalCount(table, depth, ts[0]);
      NormalCounts(table, depth, ts[1..]);
      assert [ts[0]] + ts[1..] == ts;
    }
  }
}
