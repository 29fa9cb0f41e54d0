/** Types, patterns and places as the checker reads them off the syntax. */
module FlowShapes {
  import opened Wrappers
  import opened Hir
  import opened Places
  import F = Flow

  // ----- Copy types -----

  /** `leaf` is the type itself, or a part of it at any depth of tuples. */
  predicate PartOf(leaf: Ty, t: Ty) { leaf == t || (t.TupleTy? && PartOfAny(leaf, t.parts)) }

  predicate PartOfAny(leaf: Ty, ts: seq<Ty>) { ts != [] && (PartOf(leaf, ts[0]) || PartOfAny(leaf, ts[1..])) }

  /** A mutable reference, or a plain type that is not Copy. */
  predicate Owning(t: Ty) { (t.RefTy? && t.mutable) || (t.PlainTy? && !t.copy) }

  /** A type is Copy exactly if no part of it is owning. */
  lemma {:induction false} CopyIff(t: Ty)
    ensures F.CopyTy(t) <==> !exists leaf :: PartOf(leaf, t) && Owning(leaf)
    decreases t
  {
    if t.TupleTy? {
      CopyAllIff(t.parts);
      assert forall leaf :: PartOf(leaf, t) && Owning(leaf) ==> PartOfAny(leaf, t.parts);
      if leaf :| PartOfAny(leaf, t.parts) && Owning(leaf) { assert PartOf(leaf, t); }
    } else {
      assert F.CopyTy(t) <==> !Owning(t);
      assert PartOf(t, t);
      assert forall leaf :: PartOf(leaf, t) ==> leaf == t;
    }
  }

  lemma {:induction false} CopyAllIff(ts: seq<Ty>)
    ensures F.CopyTys(ts) <==> !exists leaf :: PartOfAny(leaf, ts) && Owning(leaf)
    decreases ts
  {
    if ts != [] {
      CopyIff(ts[0]);
      CopyAllIff(ts[1..]);
      if leaf :| PartOf(leaf, ts[0]) && Owning(leaf) { assert PartOfAny(leaf, ts); }
      if leaf :| PartOfAny(leaf, ts[1..]) && Owning(leaf) { assert PartOfAny(leaf, ts); }
    }
  }

  // ----- patterns -----

  /** The type that reaches part `i` of a tuple pattern. */
  function PartTy(ty: Ty, i: nat): Ty { if ty.TupleTy? && i < |ty.parts| then ty.parts[i] else UnitTy }

  lemma {:induction false} EachPart(ps: seq<Shape>, tys: seq<Ty>, i: nat) returns (a: seq<Binding>, b: seq<Binding>)
    requires i < |ps|
    ensures F.DescendAll(ps, tys) == a + F.Descend(ps[i], if i < |tys| then tys[i] else UnitTy) + b
    ensures i == 0 ==> a == []
    decreases i
  {
    if i == 0 {
      a, b := [], F.DescendAll(ps[1..], F.RestTys(tys));
    } else {
      var c: seq<Binding>;
      c, b := EachPart(ps[1..], F.RestTys(tys), i - 1);
      a := F.Descend(ps[0], F.FirstTy(tys)) + c;
    }
  }

  /** Part `i` of a tuple pattern is matched with part `i` of the type; a reference
      pattern with what the reference points to; a name binds at the type itself. */
  lemma {:induction false} PatternTypes(ps: seq<Shape>, ty: Ty, i: nat) returns (a: seq<Binding>, b: seq<Binding>)
    requires i < |ps|
    ensures F.Descend(TupleShape(ps), ty) == a + F.Descend(ps[i], PartTy(ty, i)) + b
    ensures F.Descend(RefShape(ps[i]), RefTy(true, ty)) == F.Descend(RefShape(ps[i]), RefTy(false, ty)) == F.Descend(ps[i], ty)
  {
    a, b := EachPart(ps, if ty.TupleTy? then ty.parts else [], i);
  }

  /** What a name is recorded as. */
  lemma NameTypes(name: string, ty: Ty, actual: Real)
    ensures
      var bs := F.Descend(NameShape(name, actual, None), ty);
      |bs| == 1 && bs[0].name == name && (bs[0].copy <==> F.CopyTy(ty)) && (bs[0].reference <==> ty.RefTy?)
      && bs[0].reallyCopy == actual.copy && bs[0].reallyRef == actual.reference
  {
  }

  // ----- places -----

  /** A dotted path is a chain of fields. */
  lemma DottedIsFields(segs: seq<string>, name: string, bound: set<string>)
    requires segs != []
    ensures F.FullPlace(Path(segs + [name]), bound) == F.FullPlace(Field(Path(segs), name), bound)
  {
    assert (segs + [name])[0] == segs[0] && (segs + [name])[1..] == segs[1..] + [name];
    assert F.Fields(segs[1..] + [name]) == F.Fields(segs[1..]) + [FieldOf(name)];
  }

  /** Every place expression, one projection at a time. */
  lemma PlaceSpelled(e: Expr, x: string, bound: set<string>)
    ensures F.FullPlace(Path([x]), bound) == if x in bound then Some(Place(x, [])) else None
    ensures
      var p := F.FullPlace(e, bound);
      p.Some? ==>
        && (forall name :: F.FullPlace(Field(e, name), bound) == Some(Place(p.value.root, p.value.projs + [FieldOf(name)])))
        && (forall i :: F.FullPlace(Index(e, i), bound) == Some(Place(p.value.root, p.value.projs + [AnyIndex])))
        && (forall owning :: F.FullPlace(Unary(true, owning, e), bound) == Some(Place(p.value.root, p.value.projs + [DerefOf])))
  {
    assert [x][1..] == [] && F.Fields([]) == [];
  }

  /** The parameters of a lambda, in order, each taken for Unit. */
  lemma {:induction false} LambdaParams(params: seq<Param>, i: nat)
    requires i < |params|
    ensures var bs := F.UnitBindings(params);
            |bs| == |params| && bs[i].name == params[i].name && bs[i].copy && !bs[i].reference
            && bs[i].reallyCopy == params[i].actual.copy && bs[i].reallyRef == params[i].actual.reference
    decreases |params|
  {
    if |params| > 1 { LambdaParams(params[1..], if i > 0 then i - 1 else 0); }
  }
}
