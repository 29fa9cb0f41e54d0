/** What a successful or failed unification means. */
module UnificationProof {
  import opened Unification

  // ----- soundness -----

  /** Equal up to `Any`, reference mutability and nominal names. */
  predicate Agree(t: Ty, u: Ty)
    decreases t
  {
    t.Any? || u.Any? || t == u
    || (t.Con? && u.Con? && (SameName(t.head, u.head) || (SameShape(t.head, u.head) && AgreeAll(t.args, u.args))))
  }

  predicate AgreeAll(ts: seq<Ty>, us: seq<Ty>)
    decreases ts
  {
    |ts| == |us| && (ts == [] || (Agree(ts[0], us[0]) && AgreeAll(ts[1..], us[1..])))
  }

  /** One step of the loop over pairs, with what its two calls have to be smaller
      than. */
  lemma {:induction false} PairStep(xs: seq<Ty>, ys: seq<Ty>, s: Subst) returns (r: Outcome, x: Ty, y: Ty, xs1: seq<Ty>, ys1: seq<Ty>)
    requires Acyclic(s) && |xs| == |ys| && xs != []
    ensures x == xs[0] && y == ys[0] && xs1 == xs[1..] && ys1 == ys[1..] && r == Unify(x, y, s) && Acyclic(r.s)
    ensures UnifyAll(xs, ys, s) == if r.ok then UnifyAll(xs1, ys1, r.s) else r
    ensures |Free(Vars(x) + Vars(y), s)| <= |Free(VarsAll(xs) + VarsAll(ys), s)| && Size(Apply(s, x)) < SizeAll(ApplyAll(s, xs))
    ensures
      var before, after := |Free(VarsAll(xs) + VarsAll(ys), s)|, |Free(VarsAll(xs1) + VarsAll(ys1), r.s)|;
      after < before || (after == before && SizeAll(ApplyAll(r.s, xs1)) < SizeAll(ApplyAll(s, xs)))
  {
    x, y, xs1, ys1 := xs[0], ys[0], xs[1..], ys[1..];
    r := Unify(x, y, s);
    FirstSmaller(xs, ys, s);
    RestSmaller(xs, ys, s, r.s);
  }

  /** On success the types agree, under the result and under every later state. */
  lemma {:induction false} UnifySound(a: Ty, b: Ty, s: Subst, later: Subst)
    requires Acyclic(s) && Unify(a, b, s).ok
    requires Acyclic(later) && Extends(later, Unify(a, b, s).s)
    ensures Agree(Apply(later, a), Apply(later, b))
    decreases |Free(Vars(a) + Vars(b), s)|, Size(Apply(s, a)), 2
  {
    Opened(a, b, s);
    HeadsSound(Apply(s, a), Apply(s, b), s, later);
    assert Extends(later, s);
    ApplyExtends(s, later, a);
    ApplyExtends(s, later, b);
  }

  lemma {:induction false} HeadsSound(x: Ty, y: Ty, s: Subst, later: Subst)
    requires Acyclic(s) && Resolved(s, x) && Resolved(s, y) && UnifyHeads(x, y, s).ok
    requires Acyclic(later) && Extends(later, UnifyHeads(x, y, s).s)
    ensures Agree(Apply(later, x), Apply(later, y))
    decreases |Free(Vars(x) + Vars(y), s)|, Size(x), 1
  {
    if x.Any? || y.Any? || x == y {
    } else if x.Var? {
      assert x.id in s[x.id := y] && later[x.id] == y;
    } else if y.Var? {
      assert y.id in s[y.id := x] && later[y.id] == x;
    } else if SameShape(x.head, y.head) {
      ApplyAllResolved(s, x.args);
      UnifyAllSound(x.args, y.args, s, later);
    }
  }

  lemma {:induction false} UnifyAllSound(xs: seq<Ty>, ys: seq<Ty>, s: Subst, later: Subst)
    requires Acyclic(s) && |xs| == |ys| && UnifyAll(xs, ys, s).ok
    requires Acyclic(later) && Extends(later, UnifyAll(xs, ys, s).s)
    ensures AgreeAll(ApplyAll(later, xs), ApplyAll(later, ys))
    decreases |Free(VarsAll(xs) + VarsAll(ys), s)|, SizeAll(ApplyAll(s, xs)), 0
  {
    if xs != [] {
      var r, x, y, xs1, ys1 := PairStep(xs, ys, s);
      RestExtends(xs1, ys1, r.s, later);
      UnifySound(x, y, s, later);
      UnifyAllSound(xs1, ys1, r.s, later);
      assert ApplyAll(later, xs)[1..] == ApplyAll(later, xs1) && ApplyAll(later, ys)[1..] == ApplyAll(later, ys1);
    }
  }

  lemma RestExtends(xs: seq<Ty>, ys: seq<Ty>, s: Subst, later: Subst)
    requires Acyclic(s) && |xs| == |ys| && Extends(later, UnifyAll(xs, ys, s).s)
    ensures Extends(later, s)
  {
  }

  // ----- most general unifiers -----

  /** The types the most-general-unifier claim is about: no `Any`, scalars and
      names without arguments, records without variables in their fields. */
  predicate Plain(t: Ty) {
    match t
    case Var(_) => true
    case Any => false
    case Con(h, args) =>
      if SameShape(h, h) then PlainAll(args)
      else if h.Record? then VarsAll(args) == {}
      else args == []
  }

  predicate PlainAll(ts: seq<Ty>) { ts == [] || (Plain(ts[0]) && PlainAll(ts[1..])) }

  ghost predicate PlainSubst(s: Subst) { forall v :: v in s ==> Plain(s[v]) }

  /** The instance of `t` under `sigma`, with what unification ignores erased:
      field lists, variant lists, and the mutability of references. */
  function Inst(sigma: Subst, t: Ty): Ty {
    match t
    case Var(v) => if v in sigma then Erase(sigma[v]) else t
    case Any => t
    case Con(h, args) => if SameShape(h, h) then Con(EraseHead(h), InstAll(sigma, args)) else Con(EraseHead(h), [])
  }

  function InstAll(sigma: Subst, ts: seq<Ty>): (r: seq<Ty>)
    ensures |r| == |ts|
  {
    if ts == [] then [] else [Inst(sigma, ts[0])] + InstAll(sigma, ts[1..])
  }

  function Erase(t: Ty): Ty {
    match t
    case Con(h, args) => if SameShape(h, h) then Con(EraseHead(h), EraseAll(args)) else Con(EraseHead(h), [])
    case _ => t
  }

  function EraseAll(ts: seq<Ty>): seq<Ty> {
    if ts == [] then [] else [Erase(ts[0])] + EraseAll(ts[1..])
  }

  function EraseHead(h: Head): Head {
    match h
    case Ref(_) => Ref(false)
    case Record(n, _) => Record(n, [])
    case Enum(n, _) => Enum(n, [])
    case _ => h
  }

  /** `sigma` makes both types the same. */
  predicate Equates(sigma: Subst, a: Ty, b: Ty) { Inst(sigma, a) == Inst(sigma, b) }

  /** `sigma` respects every binding: it is an instance of the substitution. */
  ghost predicate Satisfies(sigma: Subst, s: Subst) {
    forall v :: v in s ==> Equates(sigma, Var(v), s[v])
  }

  /** A substitution that respects `s` factors through it. */
  lemma {:induction false} Factors(sigma: Subst, s: Subst, t: Ty)
    requires Acyclic(s) && Satisfies(sigma, s)
    ensures Inst(sigma, Apply(s, t)) == Inst(sigma, t)
    decreases Height(RankOf(s), t), t
  {
    match t
    case Var(v) => if v in s { Factors(sigma, s, s[v]); assert Equates(sigma, Var(v), s[v]); }
    case Any =>
    case Con(_, args) => FactorsAll(sigma, s, args);
  }

  lemma {:induction false} FactorsAll(sigma: Subst, s: Subst, ts: seq<Ty>)
    requires Acyclic(s) && Satisfies(sigma, s)
    ensures InstAll(sigma, ApplyAll(s, ts)) == InstAll(sigma, ts)
    decreases HeightAll(RankOf(s), ts), ts
  {
    if ts != [] {
      Factors(sigma, s, ts[0]);
      FactorsAll(sigma, s, ts[1..]);
      assert ApplyAll(s, ts)[1..] == ApplyAll(s, ts[1..]);
    }
  }

  lemma {:induction false} ApplyPlain(s: Subst, t: Ty)
    requires Acyclic(s) && PlainSubst(s) && Plain(t)
    ensures Plain(Apply(s, t))
    decreases Height(RankOf(s), t), t
  {
    match t
    case Var(v) => if v in s { ApplyPlain(s, s[v]); }
    case Any =>
    case Con(h, args) =>
      if SameShape(h, h) { ApplyAllPlain(s, args); } else { ApplyAllResolved(s, args); }
  }

  lemma {:induction false} ApplyAllPlain(s: Subst, ts: seq<Ty>)
    requires Acyclic(s) && PlainSubst(s) && PlainAll(ts)
    ensures PlainAll(ApplyAll(s, ts))
    decreases HeightAll(RankOf(s), ts), ts
  {
    if ts != [] {
      ApplyPlain(s, ts[0]);
      ApplyAllPlain(s, ts[1..]);
      assert ApplyAll(s, ts)[1..] == ApplyAll(s, ts[1..]);
    }
  }

  /** Plain inputs only ever bind variables to plain types, failing or not. */
  lemma {:induction false} UnifyPlain(a: Ty, b: Ty, s: Subst)
    requires Acyclic(s) && PlainSubst(s) && Plain(a) && Plain(b)
    ensures PlainSubst(Unify(a, b, s).s)
    decreases |Free(Vars(a) + Vars(b), s)|, Size(Apply(s, a)), 2
  {
    Opened(a, b, s);
    ApplyPlain(s, a);
    ApplyPlain(s, b);
    HeadsPlain(Apply(s, a), Apply(s, b), s);
  }

  lemma {:induction false} HeadsPlain(x: Ty, y: Ty, s: Subst)
    requires Acyclic(s) && Resolved(s, x) && Resolved(s, y) && PlainSubst(s) && Plain(x) && Plain(y)
    ensures PlainSubst(UnifyHeads(x, y, s).s)
    decreases |Free(Vars(x) + Vars(y), s)|, Size(x), 1
  {
    if x.Con? && y.Con? && x != y && SameShape(x.head, y.head) && |x.args| == |y.args| {
      ApplyAllResolved(s, x.args);
      UnifyAllPlain(x.args, y.args, s);
    }
  }

  lemma {:induction false} UnifyAllPlain(xs: seq<Ty>, ys: seq<Ty>, s: Subst)
    requires Acyclic(s) && PlainSubst(s) && |xs| == |ys| && PlainAll(xs) && PlainAll(ys)
    ensures PlainSubst(UnifyAll(xs, ys, s).s)
    decreases |Free(VarsAll(xs) + VarsAll(ys), s)|, SizeAll(ApplyAll(s, xs)), 0
  {
    if xs != [] {
      var r, x, y, xs1, ys1 := PairStep(xs, ys, s);
      UnifyPlain(x, y, s);
      if r.ok { UnifyAllPlain(xs1, ys1, r.s); }
    }
  }

  /** A variable strictly inside a plain type has a strictly smaller instance. */
  lemma {:induction false} OccursGrows(sigma: Subst, v: int, t: Ty)
    requires Plain(t) && v in Vars(t)
    ensures t == Var(v) || Size(Inst(sigma, Var(v))) < Size(Inst(sigma, t))
    decreases t
  {
    if t.Con? { OccursGrowsAll(sigma, v, t.args); }
  }

  lemma {:induction false} OccursGrowsAll(sigma: Subst, v: int, ts: seq<Ty>)
    requires PlainAll(ts) && v in VarsAll(ts)
    ensures Size(Inst(sigma, Var(v))) <= SizeAll(InstAll(sigma, ts))
    decreases ts
  {
    assert InstAll(sigma, ts)[1..] == InstAll(sigma, ts[1..]);
    if v in Vars(ts[0]) { OccursGrows(sigma, v, ts[0]); } else { OccursGrowsAll(sigma, v, ts[1..]); }
  }

  /** If anything at all equates the types within `s`, unification succeeds and
      that substitution is an instance of the result: failure means there is no
      unifier, success means the result is most general. */
  lemma {:induction false} MostGeneral(a: Ty, b: Ty, s: Subst, sigma: Subst)
    requires Acyclic(s) && PlainSubst(s) && Plain(a) && Plain(b)
    requires Satisfies(sigma, s) && Equates(sigma, a, b)
    ensures Unify(a, b, s).ok && Satisfies(sigma, Unify(a, b, s).s)
    decreases |Free(Vars(a) + Vars(b), s)|, Size(Apply(s, a)), 2
  {
    Opened(a, b, s);
    ApplyPlain(s, a);
    ApplyPlain(s, b);
    Factors(sigma, s, a);
    Factors(sigma, s, b);
    HeadsMostGeneral(Apply(s, a), Apply(s, b), s, sigma);
  }

  lemma {:induction false} HeadsMostGeneral(x: Ty, y: Ty, s: Subst, sigma: Subst)
    requires Acyclic(s) && Resolved(s, x) && Resolved(s, y) && PlainSubst(s) && Plain(x) && Plain(y)
    requires Satisfies(sigma, s) && Equates(sigma, x, y)
    ensures UnifyHeads(x, y, s).ok && Satisfies(sigma, UnifyHeads(x, y, s).s)
    decreases |Free(Vars(x) + Vars(y), s)|, Size(x), 1
  {
    if x == y {
    } else if x.Var? {
      NoOccurrence(sigma, x.id, y);
    } else if y.Var? {
      NoOccurrence(sigma, y.id, x);
    } else {
      HeadsMatch(sigma, x, y);
      if SameShape(x.head, y.head) {
        ApplyAllResolved(s, x.args);
        MostGeneralAll(x.args, y.args, s, sigma);
      }
    }
  }

  /** A unifier of a variable and another type rules the occurs check out. */
  lemma NoOccurrence(sigma: Subst, v: int, t: Ty)
    requires Plain(t) && t != Var(v) && Equates(sigma, Var(v), t)
    ensures v !in Vars(t)
  {
    if v in Vars(t) { OccursGrows(sigma, v, t); }
  }

  lemma HeadsMatch(sigma: Subst, x: Ty, y: Ty)
    requires x.Con? && y.Con? && x != y && Plain(x) && Plain(y) && Inst(sigma, x) == Inst(sigma, y)
    ensures SameShape(x.head, y.head) || SameName(x.head, y.head)
    ensures SameShape(x.head, y.head) ==> InstAll(sigma, x.args) == InstAll(sigma, y.args)
  {
    assert EraseHead(x.head) == EraseHead(y.head);
  }

  lemma InstAllSplits(sigma: Subst, xs: seq<Ty>, ys: seq<Ty>)
    requires |xs| == |ys| && xs != [] && InstAll(sigma, xs) == InstAll(sigma, ys)
    ensures Equates(sigma, xs[0], ys[0]) && InstAll(sigma, xs[1..]) == InstAll(sigma, ys[1..])
  {
    assert InstAll(sigma, xs)[0] == Inst(sigma, xs[0]) && InstAll(sigma, ys)[0] == Inst(sigma, ys[0]);
    assert InstAll(sigma, xs)[1..] == InstAll(sigma, xs[1..]) && InstAll(sigma, ys)[1..] == InstAll(sigma, ys[1..]);
  }

  lemma {:induction false} MostGeneralAll(xs: seq<Ty>, ys: seq<Ty>, s: Subst, sigma: Subst)
    requires Acyclic(s) && PlainSubst(s) && |xs| == |ys| && PlainAll(xs) && PlainAll(ys)
    requires Satisfies(sigma, s) && InstAll(sigma, xs) == InstAll(sigma, ys)
    ensures UnifyAll(xs, ys, s).ok && Satisfies(sigma, UnifyAll(xs, ys, s).s)
    decreases |Free(VarsAll(xs) + VarsAll(ys), s)|, SizeAll(ApplyAll(s, xs)), 0
  {
    if xs != [] {
      var r, x, y, xs1, ys1 := PairStep(xs, ys, s);
      InstAllSplits(sigma, xs, ys);
      MostGeneral(x, y, s, sigma);
      UnifyPlain(x, y, s);
      MostGeneralAll(xs1, ys1, r.s, sigma);
    }
  }

  /** Conversely a successful plain unification has a unifier: any `sigma` that
      respects the result equates the two types. */
  lemma UnifierExists(a: Ty, b: Ty, s: Subst, sigma: Subst)
    requires Acyclic(s) && PlainSubst(s) && Plain(a) && Plain(b) && Unify(a, b, s).ok
    requires Satisfies(sigma, Unify(a, b, s).s)
    ensures Equates(sigma, a, b) && Satisfies(sigma, s)
  {
    var s' := Unify(a, b, s).s;
    UnifySound(a, b, s, s');
    UnifyPlain(a, b, s);
    ApplyPlain(s', a);
    ApplyPlain(s', b);
    AgreeEquates(sigma, Apply(s', a), Apply(s', b));
    Factors(sigma, s', a);
    Factors(sigma, s', b);
    forall v | v in s ensures Equates(sigma, Var(v), s[v])
    {
      assert s'[v] == s[v];
    }
  }

  lemma {:induction false} AgreeEquates(sigma: Subst, t: Ty, u: Ty)
    requires Plain(t) && Plain(u) && Agree(t, u)
    ensures Equates(sigma, t, u)
    decreases t
  {
    if t != u && SameShape(t.head, u.head) {
      AgreeEquatesAll(sigma, t.args, u.args);
    }
  }

  lemma {:induction false} AgreeEquatesAll(sigma: Subst, ts: seq<Ty>, us: seq<Ty>)
    requires PlainAll(ts) && PlainAll(us) && AgreeAll(ts, us)
    ensures InstAll(sigma, ts) == InstAll(sigma, us)
    decreases ts
  {
    if ts != [] {
      AgreeEquates(sigma, ts[0], us[0]);
      AgreeEquatesAll(sigma, ts[1..], us[1..]);
    }
  }

  /** The bindings followed to the end, as one simultaneous substitution. */
  function Solved(s: Subst): Subst
    requires Acyclic(s)
  {
    map v | v in s :: Apply(s, s[v])
  }

  lemma {:induction false} SolvedInst(s: Subst, t: Ty)
    requires Acyclic(s)
    ensures Inst(Solved(s), t) == Erase(Apply(s, t))
    decreases t
  {
    if t.Con? { SolvedInstAll(s, t.args); }
  }

  lemma {:induction false} SolvedInstAll(s: Subst, ts: seq<Ty>)
    requires Acyclic(s)
    ensures InstAll(Solved(s), ts) == EraseAll(ApplyAll(s, ts))
    decreases ts
  {
    if ts != [] {
      SolvedInst(s, ts[0]);
      SolvedInstAll(s, ts[1..]);
      assert ApplyAll(s, ts)[1..] == ApplyAll(s, ts[1..]);
    }
  }

  /** Unification succeeds exactly on the pairs that have a unifier within `s`. */
  lemma UnifiableIff(a: Ty, b: Ty, s: Subst)
    requires Acyclic(s) && PlainSubst(s) && Plain(a) && Plain(b)
    ensures Unify(a, b, s).ok <==> exists sigma :: Satisfies(sigma, s) && Equates(sigma, a, b)
  {
    if Unify(a, b, s).ok {
      var s' := Unify(a, b, s).s;
      var sigma := Solved(s');
      forall v | v in s' ensures Equates(sigma, Var(v), s'[v])
      {
        SolvedInst(s', s'[v]);
      }
      UnifierExists(a, b, s, sigma);
    }
    if sigma :| Satisfies(sigma, s) && Equates(sigma, a, b) {
      MostGeneral(a, b, s, sigma);
    }
  }

  /** Without the closed-record condition the claim is false: the occurs check
      looks into record fields although records match by name alone. */
  lemma OpenRecordRejected(v: int, name: string, fields: seq<string>, args: seq<Ty>)
    requires v in VarsAll(args)
    ensures
      var t := Con(Record(name, fields), args);
      Acyclic(map[]) && !Unify(Var(v), t, map[]).ok && Equates(map[v := t], Var(v), t)
  {
    assert Ranked(map[], map[]);
    ApplyAllResolved(map[], args);
  }
}
