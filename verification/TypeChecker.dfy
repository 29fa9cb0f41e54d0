/** The checker object: one substitution and one variable counter, both updated
    in place by unification, error reporting and scheme instantiation. */
module TypeCheckers {
  import opened Unification
  import opened UnificationProof
  import opened UnificationAny

  /** A bound renaming of variables. */
  function Rename(ren: map<int, int>, t: Ty): Ty {
    match t
    case Var(v) => if v in ren then Var(ren[v]) else t
    case Any => t
    case Con(h, args) => Con(h, RenameAll(ren, args))
  }

  function RenameAll(ren: map<int, int>, ts: seq<Ty>): (r: seq<Ty>)
    ensures |r| == |ts|
  {
    if ts == [] then [] else [Rename(ren, ts[0])] + RenameAll(ren, ts[1..])
  }

  /** The pairs still to unify are no larger than the loop started with. */
  ghost predicate Within(xs: seq<Ty>, ys: seq<Ty>, s: Subst, free: nat, size: nat)
    requires Acyclic(s)
  {
    var f := |Free(VarsAll(xs) + VarsAll(ys), s)|;
    f < free || (f == free && SizeAll(ApplyAll(s, xs)) <= size)
  }

  /** The first pair is smaller than what the loop started with. */
  lemma FirstWithin(xs: seq<Ty>, ys: seq<Ty>, s: Subst, free: nat, size: nat)
    requires Acyclic(s) && |xs| == |ys| && xs != [] && Within(xs, ys, s, free, size)
    ensures var f := |Free(Vars(xs[0]) + Vars(ys[0]), s)|; f < free || (f == free && Size(Apply(s, xs[0])) < size)
  {
    FirstSmaller(xs, ys, s);
  }

  /** Once the first pair agrees, the rest is what is left of the whole. */
  lemma RestWithin(xs: seq<Ty>, ys: seq<Ty>, s: Subst, s': Subst, free: nat, size: nat)
    requires Acyclic(s) && |xs| == |ys| && xs != [] && Within(xs, ys, s, free, size)
    requires Unify(xs[0], ys[0], s) == Outcome(true, s') && Keeps(s, s', Vars(xs[0]) + Vars(ys[0]))
    ensures Within(xs[1..], ys[1..], s', free, size) && UnifyAll(xs, ys, s) == UnifyAll(xs[1..], ys[1..], s')
  {
    RestSmaller(xs, ys, s, s');
  }

  class TypeChecker {
    var subst: Subst
    var nextVar: int
    var errors: nat

    constructor ()
      ensures subst == map[] && nextVar == 0 && errors == 0 && Acyclic(subst)
    {
      subst, nextVar, errors := map[], 0, 0;
      new;
      assert Ranked(subst, map[]);
    }

    /** `unify`: `ok` is false where the source raises; the bindings made before
        that stay. */
    method UnifyTypes(a: Ty, b: Ty) returns (ok: bool)
      requires Acyclic(subst)
      modifies this`subst
      ensures Outcome(ok, subst) == Unify(a, b, old(subst))
      ensures Keeps(old(subst), subst, Vars(a) + Vars(b))
      decreases |Free(Vars(a) + Vars(b), subst)|, Size(Apply(subst, a)), 2
    {
      Opened(a, b, subst);
      var x, y := Apply(subst, a), Apply(subst, b);
      ok := UnifyResolved(x, y);
    }

    method UnifyResolved(x: Ty, y: Ty) returns (ok: bool)
      requires Acyclic(subst) && Resolved(subst, x) && Resolved(subst, y)
      modifies this`subst
      ensures Outcome(ok, subst) == UnifyHeads(x, y, old(subst))
      decreases |Free(Vars(x) + Vars(y), subst)|, Size(x), 1
    {
      if x.Any? || y.Any? { return true; }
      if x == y { return true; }
      if x.Var? {
        if x.id in Vars(y) { return false; }
        subst := subst[x.id := y];
        return true;
      }
      if y.Var? {
        if y.id in Vars(x) { return false; }
        subst := subst[y.id := x];
        return true;
      }
      if SameShape(x.head, y.head) {
        if |x.args| != |y.args| { return false; }
        ApplyAllResolved(subst, x.args);
        ok := UnifyPairs(x.args, y.args);
        return;
      }
      return SameName(x.head, y.head);
    }

    /** The loop over paired arguments, up to the first failure. */
    method UnifyPairs(xs: seq<Ty>, ys: seq<Ty>) returns (ok: bool)
      requires Acyclic(subst) && |xs| == |ys|
      modifies this`subst
      ensures Outcome(ok, subst) == UnifyAll(xs, ys, old(subst))
      decreases |Free(VarsAll(xs) + VarsAll(ys), subst)|, SizeAll(ApplyAll(subst, xs)), 0
    {
      ghost var free, size := |Free(VarsAll(xs) + VarsAll(ys), subst)|, SizeAll(ApplyAll(subst, xs));
      var i := 0;
      while i < |xs|
        invariant 0 <= i <= |xs| && Acyclic(subst)
        invariant UnifyAll(xs[i..], ys[i..], subst) == UnifyAll(xs, ys, old(subst))
        invariant Within(xs[i..], ys[i..], subst, free, size)
      {
        ghost var s, ps, qs := subst, xs[i..], ys[i..];
        assert ps[0] == xs[i] && qs[0] == ys[i] && ps[1..] == xs[i + 1..] && qs[1..] == ys[i + 1..];
        FirstWithin(ps, qs, s, free, size);
        ok := UnifyTypes(xs[i], ys[i]);
        if !ok { return; }
        RestWithin(ps, qs, s, subst, free, size);
        i := i + 1;
      }
      return true;
    }

    /** `_unify`: a conflict becomes a diagnostic; agreement lasts. */
    method UnifyOrReport(a: Ty, b: Ty) returns (ok: bool)
      requires Acyclic(subst)
      modifies this`subst, this`errors
      ensures Outcome(ok, subst) == Unify(a, b, old(subst)) && Keeps(old(subst), subst, Vars(a) + Vars(b))
      ensures ok ==> errors == old(errors) && Agree(Apply(subst, a), Apply(subst, b))
      ensures ok && subst == old(subst) <==> Agree(Apply(old(subst), a), Apply(old(subst), b))
      ensures !ok ==> errors == old(errors) + 1
    {
      ghost var s := subst;
      ok := UnifyTypes(a, b);
      NothingBoundIff(a, b, s);
      if ok {
        UnifySound(a, b, s, subst);
      } else {
        errors := errors + 1;
      }
    }

    method Fresh() returns (v: int)
      modifies this`nextVar
      ensures v == old(nextVar) && nextVar == old(nextVar) + 1
    {
      v := nextVar;
      nextVar := nextVar + 1;
    }

    /** `_instantiate`: one fresh variable a scheme entry, in order; the type is
        resolved and then renamed. */
    method Instantiate(t: Ty, scheme: seq<int>) returns (r: Ty, ren: map<int, int>, minted: seq<int>)
      requires Acyclic(subst)
      modifies this`nextVar
      ensures nextVar == old(nextVar) + |scheme|
      ensures |minted| == |scheme| && forall i :: 0 <= i < |minted| ==> minted[i] == old(nextVar) + i
      ensures FreshRenaming(ren, scheme, old(nextVar), nextVar)
      ensures r == if scheme == [] then t else Rename(ren, Apply(subst, t))
    {
      ren, minted := map[], [];
      for i := 0 to |scheme|
        invariant nextVar == old(nextVar) + i
        invariant |minted| == i && forall j :: 0 <= j < i ==> minted[j] == old(nextVar) + j
        invariant FreshRenaming(ren, scheme[..i], old(nextVar), nextVar)
      {
        var v := Fresh();
        ren := ren[scheme[i] := v];
        minted := minted + [v];
        assert scheme[..i + 1] == scheme[..i] + [scheme[i]];
      }
      assert scheme[..|scheme|] == scheme;
      if scheme == [] { r := t; } else { r := Rename(ren, Apply(subst, t)); }
    }
  }

  /** Renames exactly the scheme's variables, one to one, into [lo, hi). */
  ghost predicate FreshRenaming(ren: map<int, int>, scheme: seq<int>, lo: int, hi: int) {
    && (forall v :: v in ren <==> v in scheme)
    && (forall v :: v in ren ==> lo <= ren[v] < hi)
    && (forall v, w :: v in ren && w in ren && ren[v] == ren[w] ==> v == w)
  }

  ghost predicate Below(vs: set<int>, lo: int) { forall v :: v in vs ==> v < lo }

  lemma {:induction false} RenameVars(ren: map<int, int>, t: Ty)
    ensures forall v :: v in Vars(Rename(ren, t)) <==>
              (v in Vars(t) && v !in ren) || exists u :: u in Vars(t) && u in ren && ren[u] == v
    decreases t
  {
    if t.Con? { RenameAllVars(ren, t.args); }
  }

  lemma {:induction false} RenameAllVars(ren: map<int, int>, ts: seq<Ty>)
    ensures forall v :: v in VarsAll(RenameAll(ren, ts)) <==>
              (v in VarsAll(ts) && v !in ren) || exists u :: u in VarsAll(ts) && u in ren && ren[u] == v
    decreases ts
  {
    if ts != [] {
      RenameVars(ren, ts[0]);
      RenameAllVars(ren, ts[1..]);
      assert RenameAll(ren, ts)[1..] == RenameAll(ren, ts[1..]);
    }
  }

  /** Hygiene of one instance: no scheme variable survives in it. */
  lemma {:induction false} InstanceAvoidsScheme(ren: map<int, int>, scheme: seq<int>, lo: int, hi: int, t: Ty)
    requires FreshRenaming(ren, scheme, lo, hi)
    requires (forall v :: v in scheme ==> v < lo) && Below(Vars(t), lo)
    ensures forall v :: v in Vars(Rename(ren, t)) ==> v !in scheme
  {
    RenameVars(ren, t);
  }

  /** Two instances share only variables outside the scheme. */
  lemma {:induction false} InstancesShareNothingGeneric(r1: map<int, int>, r2: map<int, int>, scheme: seq<int>,
                                     lo: int, mid: int, hi: int, t: Ty)
    requires FreshRenaming(r1, scheme, lo, mid) && FreshRenaming(r2, scheme, mid, hi)
    requires (forall v :: v in scheme ==> v < lo) && Below(Vars(t), lo)
    ensures forall v :: v in Vars(Rename(r1, t)) && v in Vars(Rename(r2, t)) ==> v in Vars(t) && v !in scheme
  {
    RenameVars(r1, t);
    RenameVars(r2, t);
  }

  function Inverse(ren: map<int, int>, scheme: seq<int>, lo: int, hi: int): (inv: map<int, int>)
    requires FreshRenaming(ren, scheme, lo, hi)
    ensures forall v :: v in ren ==> ren[v] in inv && inv[ren[v]] == v
    ensures forall w :: w in inv ==> lo <= w < hi
  {
    map v | v in ren :: ren[v] := v
  }

  /** The instance is a renaming and nothing else: it can be undone. */
  lemma {:induction false} InstanceIsRenaming(ren: map<int, int>, scheme: seq<int>, lo: int, hi: int, t: Ty)
    requires FreshRenaming(ren, scheme, lo, hi) && Below(Vars(t), lo)
    ensures Rename(Inverse(ren, scheme, lo, hi), Rename(ren, t)) == t
    decreases t
  {
    match t
    case Var(v) => assert v in Vars(t);
    case Any =>
    case Con(_, args) => assert Vars(t) == VarsAll(args); InstancesAreRenamings(ren, scheme, lo, hi, args);
  }

  lemma {:induction false} InstancesAreRenamings(ren: map<int, int>, scheme: seq<int>, lo: int, hi: int, ts: seq<Ty>)
    requires FreshRenaming(ren, scheme, lo, hi) && Below(VarsAll(ts), lo)
    ensures RenameAll(Inverse(ren, scheme, lo, hi), RenameAll(ren, ts)) == ts
    decreases ts
  {
    if ts != [] {
      assert Vars(ts[0]) <= VarsAll(ts) && VarsAll(ts[1..]) <= VarsAll(ts);
      InstanceIsRenaming(ren, scheme, lo, hi, ts[0]);
      InstancesAreRenamings(ren, scheme, lo, hi, ts[1..]);
      assert RenameAll(ren, ts)[1..] == RenameAll(ren, ts[1..]);
    }
  }
}
