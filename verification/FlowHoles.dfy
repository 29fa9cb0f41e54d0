/** Where the guarantee ends: what the walker accepts although a path goes wrong,
    and exactly when. */
module FlowHoles {
  import opened Wrappers
  import opened Hir
  import opened Places
  import opened Nll
  import opened FlowState
  import opened FlowPaths
  import opened FlowSafety
  import F = Flow

  // ----- index operands of borrowed places -----

  /** Some of these names is moved or has no value yet. */
  ghost predicate Misread(xs: seq<string>, ps: PathState) { exists x :: x in xs && !Usable(ps, x) }

  lemma MisreadSplit(a: seq<string>, b: seq<string>, ps: PathState)
    ensures Misread(a + b, ps) <==> Misread(a, ps) || Misread(b, ps)
  {
    if Misread(a, ps) { var x :| x in a && !Usable(ps, x); assert x in a + b; }
    if Misread(b, ps) { var x :| x in b && !Usable(ps, x); assert x in a + b; }
  }

  lemma MisreadSame(xs: seq<string>, ps: PathState, r: PathState)
    requires r.frames == ps.frames
    ensures Misread(xs, ps) <==> Misread(xs, r)
  {
    if Misread(xs, ps) { var x :| x in xs && !Usable(ps, x); assert !Usable(r, x); }
    if Misread(xs, r) { var x :| x in xs && !Usable(r, x); assert !Usable(ps, x); }
  }

  lemma {:induction false} OperandMisuse(e: Expr, ps: PathState)
    requires F.Visible(e)
    ensures OperandReads(e, ps).misuse <==> ps.misuse || Misread(Reads(e), ps)
    decreases e
  {
    match e
    case Path(segs) =>
      if segs != [] {
        MisreadSame([segs[0]], ps, Tick(Follow(ps, segs[0])));
        assert segs[0] in [segs[0]];
      }
    case Field(r, _) => OperandMisuse(r, ps);
    case Unary(_, _, r) => OperandMisuse(r, ps);
    case Index(r, i) =>
      OperandMisuse(r, ps);
      OperandMisuse(i, OperandReads(r, ps));
      MisreadSame(Reads(i), ps, OperandReads(r, ps));
      MisreadSplit(Reads(r), Reads(i), ps);
    case _ =>
  }

  /** Reading a borrowed place goes wrong exactly when an index operand in it is
      moved or uninitialised. */
  lemma {:induction false} PlaceMisuse(e: Expr, ps: PathState)
    requires F.Visible(e)
    ensures PlaceReads(e, ps).misuse <==> ps.misuse || Misread(OperandNames(e), ps)
    decreases e
  {
    match e
    case Field(r, _) => PlaceMisuse(r, ps);
    case Unary(_, _, r) => PlaceMisuse(r, ps);
    case Index(r, i) =>
      PlaceMisuse(r, ps);
      OperandMisuse(i, PlaceReads(r, ps));
      MisreadSame(Reads(i), ps, PlaceReads(r, ps));
      MisreadSplit(OperandNames(r), Reads(i), ps);
    case _ =>
  }

  lemma ReportIgnoresOperands(cx: F.Cx, mutable: bool, inner: Expr)
    requires F.FullPlace(inner, cx.locals.Keys).Some?
    ensures
      var p := F.FullPlace(inner, cx.locals.Keys).value;
      F.WalkBorrow(Borrow(mutable, inner), cx).diag == F.TryBorrow(cx, Truncate(p), if mutable then F.Mut else F.Shared).diag
  {
    F.PlaceIsTruncated(inner, cx.locals.Keys);
  }

  /** The report on a borrow never depends on the operands of its place; the path
      goes wrong exactly when one of them does, or the root. */
  lemma IndexOperandIsUnchecked(cx: F.Cx, ps: PathState, mutable: bool, inner: Expr)
    requires F.Visible(inner) && F.FullPlace(inner, cx.locals.Keys).Some? && cx.locals.Keys == InScope(ps.frames)
    ensures
      var e, p := Borrow(mutable, inner), F.FullPlace(inner, cx.locals.Keys).value;
      && F.WalkBorrow(e, cx).diag == F.TryBorrow(cx, Truncate(p), if mutable then F.Mut else F.Shared).diag
      && (RunBorrow(e, ps).misuse <==> ps.misuse || !Usable(ps, p.root) || Misread(OperandNames(inner), ps))
  {
    ReportIgnoresOperands(cx, mutable, inner);
    BorrowMisuse(ps, mutable, inner);
  }

  lemma BorrowMisuse(ps: PathState, mutable: bool, inner: Expr)
    requires F.Visible(inner) && F.FullPlace(inner, InScope(ps.frames)).Some?
    ensures
      var p := F.FullPlace(inner, InScope(ps.frames)).value;
      RunBorrow(Borrow(mutable, inner), ps).misuse <==> ps.misuse || !Usable(ps, p.root) || Misread(OperandNames(inner), ps)
  {
    var ps1 := Take(ps, F.FullPlace(inner, InScope(ps.frames)).value, if mutable then F.Mut else F.Shared);
    PlaceMisuse(inner, ps1);
    MisreadSame(OperandNames(inner), ps, ps1);
  }

  // ----- types that the tables get wrong -----

  /** Everything bound below a struct or an enum pattern is taken for Unit: Copy, and
      no reference. */
  lemma {:induction false} UnitBelow(p: Shape)
    ensures forall b :: b in F.Descend(p, UnitTy) ==> b.copy && !b.reference
    decreases p
  {
    match p
    case NameShape(_, _, sub) => if sub.Some? { UnitBelow(sub.value); }
    case TupleShape(xs) => UnitBelowAll(xs);
    case StructShape(fields) => FieldsAreUnit(fields);
    case EnumShape(args) => UnitBelowAll(args);
    case RefShape(inner) => UnitBelow(inner);
    case Silent =>
  }

  lemma {:induction false} UnitBelowAll(ps: seq<Shape>)
    ensures forall b :: b in F.DescendAll(ps, []) ==> b.copy && !b.reference
    decreases ps
  {
    if ps != [] {
      UnitBelow(ps[0]);
      UnitBelowAll(ps[1..]);
    }
  }

  lemma {:induction false} FieldsAreUnit(fs: seq<FieldShape>)
    ensures forall b :: b in F.DescendFields(fs) ==> b.copy && !b.reference
    decreases fs
  {
    if fs != [] {
      if fs[0].sub.Some? { UnitBelow(fs[0].sub.value); }
      FieldsAreUnit(fs[1..]);
    }
  }

  lemma StructsBindUnit(p: Shape, ty: Ty)
    requires p.StructShape? || p.EnumShape?
    ensures forall b :: b in F.Descend(p, ty) ==> b.copy && !b.reference
  {
    if p.StructShape? { FieldsAreUnit(p.fields); } else { UnitBelowAll(p.args); }
  }

  lemma DeclareOne(ps: PathState, b: Binding, status: Status)
    requires ps.frames != []
    ensures var r := DeclareAll(ps, [b], status);
            r == ps.(frames := r.frames) && Lookup(r.frames, b.name) == Some(SlotOf(b, status))
  {
    var fs := Declare(ps.frames, b.name, SlotOf(b, status));
    assert [b][1..] == [] && DeclareAll(ps, [b], status) == ps.(frames := fs);
    assert b.name in fs[|fs| - 1];
  }

  /** A local recorded as Copy can be moved and then used: an error exactly when its
      type is not Copy. */
  lemma TakenForCopy(cx: F.Cx, ps: PathState, b: Binding, mutable: bool)
    requires ps.frames != [] && !ps.misuse && b.copy && forall r :: r in cx.ledger ==> r.place.root != b.name
    ensures
      var cx1, ps1 := F.BindAll(cx, [b], mutable), DeclareAll(ps, [b], Ready);
      var cx2, ps2 := F.DoMove(cx1, b.name), MoveOut(ps1, b.name);
      F.DoUse(cx2, b.name).diag == cx.diag && (Read(ps2, b.name).misuse <==> !b.reallyCopy)
  {
    assert [b][1..] == [];
    DeclareOne(ps, b, Ready);
    SetLookup(DeclareAll(ps, [b], Ready).frames, b.name, MovedOut, b.name);
  }

  /** A local declared without a value is recorded as Copy whatever its type. */
  lemma UnsetLetForgetsType(cx: F.Cx, ps: PathState, b: Binding)
    requires ps.frames != [] && !ps.misuse && forall r :: r in cx.ledger ==> r.place.root != b.name
    ensures
      var cx1, ps1 := F.BindUninit(cx, [b], true), DeclareAll(ps, [b], Unset);
      var cx2, ps2 := F.DoAssign(cx1, b.name), Assigned(ps1, b.name);
      var cx3, ps3 := F.DoMove(cx2, b.name), MoveOut(ps2, b.name);
      F.DoUse(cx3, b.name).diag == cx.diag && (Read(ps3, b.name).misuse <==> !b.reallyCopy)
  {
    assert [b][1..] == [];
    DeclareOne(ps, b, Unset);
    var fs := DeclareAll(ps, [b], Unset).frames;
    SetLookup(fs, b.name, Ready, b.name);
    SetLookup(SetStatus(fs, b.name, Ready), b.name, MovedOut, b.name);
  }

  // ----- references that go further than the record -----

  /** The records that still stand for a borrow. */
  ghost predicate Tied(ledger: F.Ledger, l: Held) { exists r :: r in ledger && r.place == Truncate(l.place) && r.kind == l.kind }

  /** Reading the only holder of a recorded borrow leaves the borrow alive without a
      record exactly when this was the last read of the holder, and the value that
      is being computed lasts longer or one of the names it goes to is read later. */
  lemma CopyLosesBorrow(cx: F.Cx, ps: PathState, x: string, l: Held)
    requires cx.point == ps.point && cx.lastUse == ps.lastUse && Later(ps.lastUse, x, ps.point)
    requires l.holders == {x} && Tied(cx.ledger, l)
    requires forall r :: r in cx.ledger && r.place == Truncate(l.place) && r.kind == l.kind ==> r.borrower == Some(x)
    ensures
      var after, l1 := F.DecayAfterUse(F.Advance(cx), x), HandOn(l, x, ps.passing, ps.limit);
      Alive(l1, ps.lastUse, ps.point + 1) && !Tied(after.ledger, l1)
      <==> ps.lastUse[x] == ps.point && (ps.point + 1 < Max(l.until, ps.limit)
                                         || exists y :: y in ps.passing - {l.place.root} && Later(ps.lastUse, y, ps.point + 1))
  {
    var after, l1 := F.DecayAfterUse(F.Advance(cx), x), HandOn(l, x, ps.passing, ps.limit);
    assert l1.holders == {x} + (ps.passing - {l.place.root});
    if ps.lastUse[x] == ps.point {
      assert !Tied(after.ledger, l1);
      if Alive(l1, ps.lastUse, ps.point + 1) && ps.point + 1 >= l1.until {
        var h :| h in l1.holders && Later(ps.lastUse, h, ps.point + 1);
        assert h in ps.passing - {l.place.root};
      }
      if y :| y in ps.passing - {l.place.root} && Later(ps.lastUse, y, ps.point + 1) { assert y in l1.holders; }
    }
  }

  /** Every operand of a call whose type can hold a borrow may receive what any other
      operand holds. */
  lemma OperandsMingle(ps: PathState, e: Expr, y: string)
    requires (e.Call? || e.MethodCall?) && y in OperandsOf(e, InScope(ps.frames))
    requires Lookup(ps.frames, y).Some? && Lookup(ps.frames, y).value.carries
    ensures y in Among(ps, e).passing
  {
  }

  /** What is stored through `p` may be held by whatever `p` is tied to. */
  lemma StoreReachesOwner(ps: PathState, e: Expr, p: string, y: string)
    requires e.Assign? && e.carries && p in Reads(e.lhs) && (y, p) in ps.ties
    requires Lookup(ps.frames, y).Some? && Lookup(ps.frames, y).value.carries
    ensures y in TowardTarget(ps, e).passing
  {
    var names := F.NameSet(Reads(e.lhs));
    var next := names + (set t | t in ps.ties && t.0 in names :: t.1) + (set t | t in ps.ties && t.1 in names :: t.0);
    assert (y, p).1 in names && y in next;
    assert Kin(ps.ties, names, |ps.ties|) == Kin(ps.ties, next, |ps.ties| - 1);
  }

  // ----- shadowing and refused borrows -----

  /** Leaving a scope forgets the outer local that an inner one shadowed, moved
      or not. */
  lemma ShadowForgetsMove(cx: F.Cx, ps: PathState, x: string, inner: F.Local, slot: Slot)
    requires Lookup(ps.frames, x).Some? && !ps.misuse && forall r :: r in cx.ledger ==> r.place.root != x
    ensures
      var cx1, fs := F.Bind(F.Push(cx), x, inner), Declare(Open(ps).frames, x, slot);
      && F.DoUse(F.Pop(cx1), x).diag == cx.diag
      && (Read(Close(ps.(frames := fs)), x).misuse <==> Lookup(ps.frames, x).value.status != Ready)
  {
    var cx1, fs := F.Bind(F.Push(cx), x, inner), Declare(Open(ps).frames, x, slot);
    assert fs[..|ps.frames|] == ps.frames;
    assert cx1.scopes[|cx.scopes|] == [x];
    NothingOutlives(cx.ledger, F.NameSet([x]));
  }

  lemma {:induction false} NothingOutlives(ledger: F.Ledger, departing: set<string>)
    requires forall r :: r in ledger ==> !F.Outlives(r, departing)
    ensures F.OutlivesDiags(ledger, departing) == []
    decreases |ledger|
  {
    if ledger != [] { NothingOutlives(ledger[1..], departing); }
  }
}
