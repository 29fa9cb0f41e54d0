/** Unification of types that contain `Any`: when nothing has to be bound, and when
    it succeeds at all. */
module UnificationAny {
  import opened Unification
  import opened UnificationProof

  /** `Any` on either side absorbs the other type and binds nothing. */
  lemma AnyAbsorbs(a: Ty, b: Ty, s: Subst)
    requires Acyclic(s) && (Apply(s, a).Any? || Apply(s, b).Any?)
    ensures Unify(a, b, s) == Outcome(true, s)
  {
  }

  // ----- agreement is success without a binding -----

  /** Types that already agree unify, and nothing is bound. */
  lemma {:induction false} AgreeingUnifies(a: Ty, b: Ty, s: Subst)
    requires Acyclic(s) && Agree(Apply(s, a), Apply(s, b))
    ensures Unify(a, b, s) == Outcome(true, s)
    decreases |Free(Vars(a) + Vars(b), s)|, Size(Apply(s, a)), 2
  {
    Opened(a, b, s);
    AgreeingHeads(Apply(s, a), Apply(s, b), s);
  }

  lemma {:induction false} AgreeingHeads(x: Ty, y: Ty, s: Subst)
    requires Acyclic(s) && Resolved(s, x) && Resolved(s, y) && Agree(x, y)
    ensures UnifyHeads(x, y, s) == Outcome(true, s)
    decreases |Free(Vars(x) + Vars(y), s)|, Size(x), 1
  {
    if !x.Any? && !y.Any? && x != y && SameShape(x.head, y.head) {
      ApplyAllResolved(s, x.args);
      ApplyAllResolved(s, y.args);
      AgreeAllLength(x.args, y.args);
      AgreeingPairs(x.args, y.args, s);
    }
  }

  lemma AgreeAllLength(ts: seq<Ty>, us: seq<Ty>)
    requires AgreeAll(ts, us)
    ensures |ts| == |us|
  {
  }

  lemma {:induction false} AgreeingPairs(xs: seq<Ty>, ys: seq<Ty>, s: Subst)
    requires Acyclic(s) && |xs| == |ys| && AgreeAll(ApplyAll(s, xs), ApplyAll(s, ys))
    ensures UnifyAll(xs, ys, s) == Outcome(true, s)
    decreases |Free(VarsAll(xs) + VarsAll(ys), s)|, SizeAll(ApplyAll(s, xs)), 0
  {
    if xs != [] {
      var r, x, y, xs1, ys1 := PairStep(xs, ys, s);
      assert ApplyAll(s, xs)[1..] == ApplyAll(s, xs1) && ApplyAll(s, ys)[1..] == ApplyAll(s, ys1);
      AgreeingUnifies(x, y, s);
      AgreeingPairs(xs1, ys1, s);
    }
  }

  /** Unification succeeds without binding anything exactly when the resolved types
      agree. */
  lemma {:induction false} NothingBoundIff(a: Ty, b: Ty, s: Subst)
    requires Acyclic(s)
    ensures Unify(a, b, s) == Outcome(true, s) <==> Agree(Apply(s, a), Apply(s, b))
  {
    if Unify(a, b, s) == Outcome(true, s) { UnifySound(a, b, s, s); }
    if Agree(Apply(s, a), Apply(s, b)) { AgreeingUnifies(a, b, s); }
  }

  // ----- success in general -----

  /** As for most general unifiers, but `Any` may stand anywhere. */
  predicate Lax(t: Ty) {
    match t
    case Var(_) => true
    case Any => true
    case Con(h, args) =>
      if SameShape(h, h) then LaxAll(args)
      else if h.Record? then VarsAll(args) == {}
      else args == []
  }

  predicate LaxAll(ts: seq<Ty>) { ts == [] || (Lax(ts[0]) && LaxAll(ts[1..])) }

  ghost predicate LaxSubst(s: Subst) { forall v :: v in s ==> Lax(s[v]) }

  predicate NoAny(t: Ty) {
    match t
    case Var(_) => true
    case Any => false
    case Con(_, args) => NoAnyAll(args)
  }

  predicate NoAnyAll(ts: seq<Ty>) { ts == [] || (NoAny(ts[0]) && NoAnyAll(ts[1..])) }

  /** `t` is `g` with some parts left open by `Any`. */
  predicate Below(t: Ty, g: Ty)
    decreases t
  {
    t.Any? || t == g || (t.Con? && g.Con? && t.head == g.head && BelowAll(t.args, g.args))
  }

  predicate BelowAll(ts: seq<Ty>, gs: seq<Ty>)
    decreases ts
  {
    |ts| == |gs| && (ts == [] || (Below(ts[0], gs[0]) && BelowAll(ts[1..], gs[1..])))
  }

  lemma {:induction false} BelowComplete(t: Ty, g: Ty)
    requires Below(t, g) && NoAny(t)
    ensures t == g
    decreases t
  {
    if t != g { BelowAllComplete(t.args, g.args); }
  }

  lemma {:induction false} BelowAllComplete(ts: seq<Ty>, gs: seq<Ty>)
    requires BelowAll(ts, gs) && NoAnyAll(ts)
    ensures ts == gs
    decreases ts
  {
    if ts != [] {
      BelowComplete(ts[0], gs[0]);
      BelowAllComplete(ts[1..], gs[1..]);
    }
  }

  lemma {:induction false} BelowTransitive(t: Ty, u: Ty, g: Ty)
    requires Below(t, u) && Below(u, g)
    ensures Below(t, g)
    decreases t
  {
    if !t.Any? && t != u && u != g && t.Con? && u.Con? { BelowAllTransitive(t.args, u.args, g.args); }
  }

  lemma {:induction false} BelowAllTransitive(ts: seq<Ty>, us: seq<Ty>, gs: seq<Ty>)
    requires BelowAll(ts, us) && BelowAll(us, gs)
    ensures BelowAll(ts, gs)
    decreases ts
  {
    if ts != [] {
      BelowTransitive(ts[0], us[0], gs[0]);
      BelowAllTransitive(ts[1..], us[1..], gs[1..]);
    }
  }

  lemma {:induction false} BelowIsSmaller(t: Ty, g: Ty)
    requires Below(t, g)
    ensures Size(t) <= Size(g)
    decreases t
  {
    if !t.Any? && t != g { BelowAllIsSmaller(t.args, g.args); }
  }

  lemma {:induction false} BelowAllIsSmaller(ts: seq<Ty>, gs: seq<Ty>)
    requires BelowAll(ts, gs)
    ensures SizeAll(ts) <= SizeAll(gs)
    decreases ts
  {
    if ts != [] {
      BelowIsSmaller(ts[0], gs[0]);
      BelowAllIsSmaller(ts[1..], gs[1..]);
    }
  }

  /** `sigma` has no `Any`, and fills in what the bindings leave open. */
  ghost predicate Fills(sigma: Subst, s: Subst) {
    && (forall v :: v in sigma ==> NoAny(Erase(sigma[v])))
    && forall v :: v in s ==> Below(Inst(sigma, s[v]), Inst(sigma, Var(v)))
  }

  /** Both types, filled in by `sigma`, are `g` where they are not open. */
  predicate Common(sigma: Subst, a: Ty, b: Ty, g: Ty) { NoAny(g) && Below(Inst(sigma, a), g) && Below(Inst(sigma, b), g) }

  lemma {:induction false} ApplyIsBelow(sigma: Subst, s: Subst, t: Ty)
    requires Acyclic(s) && Fills(sigma, s)
    ensures Below(Inst(sigma, Apply(s, t)), Inst(sigma, t))
    decreases Height(RankOf(s), t), t
  {
    match t
    case Var(v) =>
      if v in s {
        ApplyIsBelow(sigma, s, s[v]);
        BelowTransitive(Inst(sigma, Apply(s, s[v])), Inst(sigma, s[v]), Inst(sigma, t));
      }
    case Any =>
    case Con(_, args) => ApplyAllIsBelow(sigma, s, args);
  }

  lemma {:induction false} ApplyAllIsBelow(sigma: Subst, s: Subst, ts: seq<Ty>)
    requires Acyclic(s) && Fills(sigma, s)
    ensures BelowAll(InstAll(sigma, ApplyAll(s, ts)), InstAll(sigma, ts))
    decreases HeightAll(RankOf(s), ts), ts
  {
    if ts != [] {
      ApplyIsBelow(sigma, s, ts[0]);
      ApplyAllIsBelow(sigma, s, ts[1..]);
      InstAllSteps(sigma, ApplyAll(s, ts));
      InstAllSteps(sigma, ts);
      assert ApplyAll(s, ts)[1..] == ApplyAll(s, ts[1..]);
    }
  }

  lemma InstAllSteps(sigma: Subst, ts: seq<Ty>)
    requires ts != []
    ensures InstAll(sigma, ts)[0] == Inst(sigma, ts[0]) && InstAll(sigma, ts)[1..] == InstAll(sigma, ts[1..])
  {
  }

  lemma {:induction false} ApplyLax(s: Subst, t: Ty)
    requires Acyclic(s) && LaxSubst(s) && Lax(t)
    ensures Lax(Apply(s, t))
    decreases Height(RankOf(s), t), t
  {
    match t
    case Var(v) => if v in s { ApplyLax(s, s[v]); }
    case Any =>
    case Con(h, args) => if SameShape(h, h) { ApplyAllLax(s, args); } else { ApplyAllResolved(s, args); }
  }

  lemma {:induction false} ApplyAllLax(s: Subst, ts: seq<Ty>)
    requires Acyclic(s) && LaxSubst(s) && LaxAll(ts)
    ensures LaxAll(ApplyAll(s, ts))
    decreases HeightAll(RankOf(s), ts), ts
  {
    if ts != [] {
      ApplyLax(s, ts[0]);
      ApplyAllLax(s, ts[1..]);
      assert ApplyAll(s, ts)[1..] == ApplyAll(s, ts[1..]);
    }
  }

  lemma {:induction false} LaxOccursGrows(sigma: Subst, v: int, t: Ty)
    requires Lax(t) && v in Vars(t)
    ensures t == Var(v) || Size(Inst(sigma, Var(v))) < Size(Inst(sigma, t))
    decreases t
  {
    if t.Con? { LaxOccursGrowsAll(sigma, v, t.args); }
  }

  lemma {:induction false} LaxOccursGrowsAll(sigma: Subst, v: int, ts: seq<Ty>)
    requires LaxAll(ts) && v in VarsAll(ts)
    ensures Size(Inst(sigma, Var(v))) <= SizeAll(InstAll(sigma, ts))
    decreases ts
  {
    InstAllSteps(sigma, ts);
    if v in Vars(ts[0]) { LaxOccursGrows(sigma, v, ts[0]); } else { LaxOccursGrowsAll(sigma, v, ts[1..]); }
  }

  /** Unification succeeds whenever both types have a common instance in which every
      `Any` is filled in, and what it binds is still open to that instance. */
  lemma {:induction false} CommonInstanceSuffices(a: Ty, b: Ty, s: Subst, sigma: Subst, g: Ty)
    requires Acyclic(s) && LaxSubst(s) && Lax(a) && Lax(b) && Fills(sigma, s) && Common(sigma, a, b, g)
    ensures var r := Unify(a, b, s); r.ok && Fills(sigma, r.s) && LaxSubst(r.s)
    decreases |Free(Vars(a) + Vars(b), s)|, Size(Apply(s, a)), 2
  {
    var x, y := Apply(s, a), Apply(s, b);
    Opened(a, b, s);
    ApplyLax(s, a);
    ApplyLax(s, b);
    ApplyIsBelow(sigma, s, a);
    ApplyIsBelow(sigma, s, b);
    BelowTransitive(Inst(sigma, x), Inst(sigma, a), g);
    BelowTransitive(Inst(sigma, y), Inst(sigma, b), g);
    HeadsSuffice(x, y, s, sigma, g);
  }

  lemma {:induction false} HeadsSuffice(x: Ty, y: Ty, s: Subst, sigma: Subst, g: Ty)
    requires Acyclic(s) && Resolved(s, x) && Resolved(s, y) && LaxSubst(s) && Lax(x) && Lax(y)
    requires Fills(sigma, s) && Common(sigma, x, y, g)
    ensures var r := UnifyHeads(x, y, s); r.ok && Fills(sigma, r.s) && LaxSubst(r.s)
    decreases |Free(Vars(x) + Vars(y), s)|, Size(x), 1
  {
    if x.Any? || y.Any? || x == y {
    } else if x.Var? {
      VarSuffices(x.id, y, sigma, g);
      BoundFills(x.id, y, s, sigma);
    } else if y.Var? {
      VarSuffices(y.id, x, sigma, g);
      BoundFills(y.id, x, s, sigma);
    } else {
      HeadsMeet(sigma, x, y, g);
      if SameShape(x.head, y.head) {
        ApplyAllResolved(s, x.args);
        PairsSuffice(x.args, y.args, s, sigma, g.args);
      }
    }
  }

  /** A variable stands for the whole of the common instance. */
  lemma {:induction false} VarSuffices(v: int, t: Ty, sigma: Subst, g: Ty)
    requires Lax(t) && t != Var(v) && (v in sigma ==> NoAny(Erase(sigma[v]))) && Common(sigma, Var(v), t, g)
    ensures v !in Vars(t) && Below(Inst(sigma, t), Inst(sigma, Var(v)))
  {
    BelowComplete(Inst(sigma, Var(v)), g);
    BelowIsSmaller(Inst(sigma, t), g);
    if v in Vars(t) { LaxOccursGrows(sigma, v, t); }
  }

  lemma BoundFills(v: int, t: Ty, s: Subst, sigma: Subst)
    requires Fills(sigma, s) && LaxSubst(s) && Lax(t) && Below(Inst(sigma, t), Inst(sigma, Var(v)))
    ensures Fills(sigma, s[v := t]) && LaxSubst(s[v := t])
  {
  }

  lemma HeadsMeet(sigma: Subst, x: Ty, y: Ty, g: Ty)
    requires x.Con? && y.Con? && x != y && Lax(x) && Lax(y) && Common(sigma, x, y, g)
    ensures SameShape(x.head, y.head) || SameName(x.head, y.head)
    ensures SameShape(x.head, y.head) ==> NoAnyAll(g.args) && BelowAll(InstAll(sigma, x.args), g.args) && BelowAll(InstAll(sigma, y.args), g.args)
  {
    BelowSelf(g);
    assert g.Con? && EraseHead(x.head) == g.head == EraseHead(y.head);
  }

  lemma {:induction false} BelowSelf(g: Ty)
    ensures g.Con? ==> BelowAll(g.args, g.args)
  {
    if g.Con? { BelowAllSelf(g.args); }
  }

  lemma {:induction false} BelowAllSelf(gs: seq<Ty>)
    ensures BelowAll(gs, gs)
    decreases gs
  {
    if gs != [] { BelowAllSelf(gs[1..]); }
  }

  lemma {:induction false} PairsSuffice(xs: seq<Ty>, ys: seq<Ty>, s: Subst, sigma: Subst, gs: seq<Ty>)
    requires Acyclic(s) && LaxSubst(s) && |xs| == |ys| && LaxAll(xs) && LaxAll(ys) && Fills(sigma, s)
    requires NoAnyAll(gs) && BelowAll(InstAll(sigma, xs), gs) && BelowAll(InstAll(sigma, ys), gs)
    ensures var r := UnifyAll(xs, ys, s); r.ok && Fills(sigma, r.s) && LaxSubst(r.s)
    decreases |Free(VarsAll(xs) + VarsAll(ys), s)|, SizeAll(ApplyAll(s, xs)), 0
  {
    if xs != [] {
      var r, x, y, xs1, ys1 := PairStep(xs, ys, s);
      InstAllSteps(sigma, xs);
      InstAllSteps(sigma, ys);
      CommonInstanceSuffices(x, y, s, sigma, gs[0]);
      PairsSuffice(xs1, ys1, r.s, sigma, gs[1..]);
    }
  }
}
