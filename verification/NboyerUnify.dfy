/**
  One-way unification: the global substitution is extended while the arguments
  are compared, also along a comparison that fails in the end.
*/
module NboyerUnify {
  import opened Wrappers
  import opened NboyerTerms

  /** Result and the substitution left behind, threaded as the source threads its global. */
  function Unify(t1: Term, t2: Term, al: Subst): (bool, Subst)
    decreases t2
  {
    match t2
    case Leaf(a) => (
      match Assq(a, al)
      case Some(bound) => (IsTermEqual(t1, bound), al)
      case None =>
        if a.Number? then (IsTermEqual(t1, t2), al)
        else (true, [(a, t1)] + al))
    case App(f, args) =>
      if t1.Leaf? then (false, al)
      else if t1.head == f then UnifyList(t1.args, args, al)
      else (false, al)
  }

  function UnifyList(ts1: seq<Term>, ts2: seq<Term>, al: Subst): (bool, Subst)
    decreases ts2
  {
    if ts1 == [] then (ts2 == [], al)
    else if ts2 == [] then (false, al)
    else
      var (ok, al') := Unify(ts1[0], ts2[0], al);
      if ok then UnifyList(ts1[1..], ts2[1..], al') else (false, al')
  }

  /** Every binding of al is what sigma says. */
  ghost predicate Agrees(sigma: Subst, al: Subst) {
    forall a :: Assq(a, al).Some? ==> Lookup(sigma, a) == Assq(a, al).value
  }

  lemma AssqCons(a: Atom, t: Term, al: Subst, b: Atom)
    ensures Assq(b, [(a, t)] + al) == if a == b then Some(t) else Assq(b, al)
  {
    assert ([(a, t)] + al)[1..] == al;
  }

  lemma {:induction false} KeepsNumbers(t1: Term, t2: Term, al: Subst)
    requires NumbersFixed(al)
    ensures NumbersFixed(Unify(t1, t2, al).1)
    decreases t2
  {
    match t2
    case Leaf(a) =>
      forall n ensures Assq(Number(n), Unify(t1, t2, al).1) == None {
        AssqCons(a, t1, al, Number(n));
      }
    case App(f, args) =>
      if t1.App? && t1.head == f {
        KeepsNumbersList(t1.args, args, al);
      }
  }

  lemma {:induction false} KeepsNumbersList(ts1: seq<Term>, ts2: seq<Term>, al: Subst)
    requires NumbersFixed(al)
    ensures NumbersFixed(UnifyList(ts1, ts2, al).1)
    decreases ts2
  {
    if ts1 != [] && ts2 != [] {
      KeepsNumbers(ts1[0], ts2[0], al);
      var (ok, al') := Unify(ts1[0], ts2[0], al);
      if ok {
        KeepsNumbersList(ts1[1..], ts2[1..], al');
      }
    }
  }

  /** On success whatever agrees with the final substitution agrees with the initial one and sends t2 to t1. */
  lemma {:induction false} UnifySound(t1: Term, t2: Term, al: Subst, sigma: Subst)
    requires NumbersFixed(sigma)
    requires Unify(t1, t2, al).0
    requires Agrees(sigma, Unify(t1, t2, al).1)
    ensures Agrees(sigma, al)
    ensures ApplySubst(sigma, t2) == t1
    decreases t2
  {
    match t2
    case Leaf(a) =>
      forall b ensures Assq(b, al).Some? ==> Lookup(sigma, b) == Assq(b, al).value {
        AssqCons(a, t1, al, b);
      }
      AssqCons(a, t1, al, a);
    case App(f, args) =>
      UnifySoundList(t1.args, args, al, sigma);
  }

  lemma {:induction false} UnifySoundList(ts1: seq<Term>, ts2: seq<Term>, al: Subst, sigma: Subst)
    requires NumbersFixed(sigma)
    requires UnifyList(ts1, ts2, al).0
    requires Agrees(sigma, UnifyList(ts1, ts2, al).1)
    ensures Agrees(sigma, al)
    ensures ApplySubstList(sigma, ts2) == ts1
    decreases ts2
  {
    if ts1 != [] {
      var (_, al') := Unify(ts1[0], ts2[0], al);
      UnifySoundList(ts1[1..], ts2[1..], al', sigma);
      UnifySound(ts1[0], ts2[0], al, sigma);
    }
  }

  /** A substitution that agrees so far and sends t2 to t1 is found, and keeps agreeing. */
  lemma {:induction false} UnifyComplete(t1: Term, t2: Term, al: Subst, sigma: Subst)
    requires NumbersFixed(sigma) && Agrees(sigma, al)
    requires ApplySubst(sigma, t2) == t1
    ensures Unify(t1, t2, al).0
    ensures Agrees(sigma, Unify(t1, t2, al).1)
    decreases t2
  {
    match t2
    case Leaf(a) =>
      forall b ensures Assq(b, Unify(t1, t2, al).1).Some? ==> Lookup(sigma, b) == Assq(b, Unify(t1, t2, al).1).value {
        AssqCons(a, t1, al, b);
      }
    case App(f, args) =>
      UnifyCompleteList(t1.args, args, al, sigma);
  }

  lemma {:induction false} UnifyCompleteList(ts1: seq<Term>, ts2: seq<Term>, al: Subst, sigma: Subst)
    requires NumbersFixed(sigma) && Agrees(sigma, al)
    requires ApplySubstList(sigma, ts2) == ts1
    ensures UnifyList(ts1, ts2, al).0
    ensures Agrees(sigma, UnifyList(ts1, ts2, al).1)
    decreases ts2
  {
    if ts2 != [] {
      UnifyComplete(ts1[0], ts2[0], al, sigma);
      var (_, al') := Unify(ts1[0], ts2[0], al);
      UnifyCompleteList(ts1[1..], ts2[1..], al', sigma);
    }
  }

  /** t1 is an instance of the pattern t2, numbers standing for themselves. */
  ghost predicate IsInstance(t1: Term, t2: Term) {
    exists sigma: Subst :: NumbersFixed(sigma) && ApplySubst(sigma, t2) == t1
  }

  /** The whole contract of a unification that starts from the empty substitution. */
  lemma UnifyDecidesInstance(t1: Term, t2: Term)
    ensures Unify(t1, t2, []).0 <==> IsInstance(t1, t2)
    ensures NumbersFixed(Unify(t1, t2, []).1)
    ensures Unify(t1, t2, []).0 ==> ApplySubst(Unify(t1, t2, []).1, t2) == t1
    ensures forall sigma: Subst :: NumbersFixed(sigma) && ApplySubst(sigma, t2) == t1 ==> Agrees(sigma, Unify(t1, t2, []).1)
  {
    var (ok, al) := Unify(t1, t2, []);
    KeepsNumbers(t1, t2, []);
    if ok {
      UnifySound(t1, t2, [], al);
    }
    forall sigma: Subst | NumbersFixed(sigma) && ApplySubst(sigma, t2) == t1
      ensures ok && Agrees(sigma, al)
    {
      UnifyComplete(t1, t2, [], sigma);
    }
  }
}
