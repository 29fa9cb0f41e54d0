/** The checker as it runs: one object whose tables change step by step. Every
    method is tied to the function on values that it computes. */
module BorrowCheckers {
  import opened Wrappers
  import opened Hir
  import opened Places
  import F = Flow

  /** `conflicts_with`, folded: which kinds of live borrow overlap a place. */
  method ScanConflicts(ledger: F.Ledger, place: Place) returns (anyMut: bool, anyShared: bool)
    ensures anyMut == F.AnyOverlap(ledger, place, F.Mut) && anyShared == F.AnyOverlap(ledger, place, F.Shared)
  {
    anyMut, anyShared := false, false;
    for i := 0 to |ledger|
      invariant anyMut == F.AnyOverlap(ledger[..i], place, F.Mut) && anyShared == F.AnyOverlap(ledger[..i], place, F.Shared)
    {
      var r := ledger[i];
      assert ledger[..i + 1] == ledger[..i] + [r];
      if Overlaps(r.place, place) {
        if r.kind == F.Mut { anyMut := true; } else { anyShared := true; }
      }
    }
    assert ledger[..|ledger|] == ledger;
  }

  /** `decay_borrowers`: what stays and what is removed, in order. */
  method Retain(ledger: F.Ledger, names: set<string>) returns (kept: F.Ledger, removed: F.Ledger)
    ensures kept == F.Without(ledger, names) && removed == F.Held(ledger, names)
  {
    kept, removed := [], [];
    var i := 0;
    while i < |ledger|
      invariant 0 <= i <= |ledger| && Kept(kept, ledger, i, names) && Removed(removed, ledger, i, names)
    {
      KeptStep(kept, ledger, i, names);
      RemovedStep(removed, ledger, i, names);
      if F.HeldBy(ledger[i], names) { removed := removed + [ledger[i]]; } else { kept := kept + [ledger[i]]; }
      i := i + 1;
    }
  }

  ghost predicate Kept(kept: F.Ledger, ledger: F.Ledger, i: nat, names: set<string>)
    requires i <= |ledger|
  {
    kept + F.Without(ledger[i..], names) == F.Without(ledger, names)
  }

  ghost predicate Removed(removed: F.Ledger, ledger: F.Ledger, i: nat, names: set<string>)
    requires i <= |ledger|
  {
    removed + F.Held(ledger[i..], names) == F.Held(ledger, names)
  }

  lemma Shift(a: F.Ledger, r: F.Loan, b: F.Ledger)
    ensures a + ([r] + b) == (a + [r]) + b && a + ([] + b) == a + b
  {
  }

  lemma KeptStep(kept: F.Ledger, ledger: F.Ledger, i: nat, names: set<string>)
    requires i < |ledger| && Kept(kept, ledger, i, names)
    ensures Kept(if F.HeldBy(ledger[i], names) then kept else kept + [ledger[i]], ledger, i + 1, names)
  {
    assert ledger[i..][0] == ledger[i] && ledger[i..][1..] == ledger[i + 1..];
    Shift(kept, ledger[i], F.Without(ledger[i + 1..], names));
  }

  lemma RemovedStep(removed: F.Ledger, ledger: F.Ledger, i: nat, names: set<string>)
    requires i < |ledger| && Removed(removed, ledger, i, names)
    ensures Removed(if F.HeldBy(ledger[i], names) then removed + [ledger[i]] else removed, ledger, i + 1, names)
  {
    assert ledger[i..][0] == ledger[i] && ledger[i..][1..] == ledger[i + 1..];
    Shift(removed, ledger[i], F.Held(ledger[i + 1..], names));
  }

  method DropRooted(ledger: F.Ledger, names: set<string>) returns (kept: F.Ledger)
    ensures kept == F.NotRootedIn(ledger, names)
  {
    kept := [];
    var i := 0;
    while i < |ledger|
      invariant 0 <= i <= |ledger| && Unrooted(kept, ledger, i, names)
    {
      DropStep(kept, ledger, i, names);
      if ledger[i].place.root !in names { kept := kept + [ledger[i]]; }
      i := i + 1;
    }
  }

  ghost predicate Unrooted(kept: F.Ledger, ledger: F.Ledger, i: nat, names: set<string>)
    requires i <= |ledger|
  {
    kept + F.NotRootedIn(ledger[i..], names) == F.NotRootedIn(ledger, names)
  }

  lemma DropStep(kept: F.Ledger, ledger: F.Ledger, i: nat, names: set<string>)
    requires i < |ledger| && Unrooted(kept, ledger, i, names)
    ensures Unrooted(if ledger[i].place.root in names then kept else kept + [ledger[i]], ledger, i + 1, names)
  {
    assert ledger[i..][0] == ledger[i] && ledger[i..][1..] == ledger[i + 1..];
    Shift(kept, ledger[i], F.NotRootedIn(ledger[i + 1..], names));
  }

  /** `join_ledgers`: the records of both, each once. */
  method JoinLedgers(a: F.Ledger, b: F.Ledger) returns (out: F.Ledger)
    ensures out == F.JoinLedgers(a, b)
  {
    out := AddNew([], a);
    out := AddNew(out, b);
  }

  method AddNew(start: F.Ledger, more: F.Ledger) returns (out: F.Ledger)
    ensures out == F.AddNew(start, more)
  {
    out := start;
    var i := 0;
    while i < |more|
      invariant 0 <= i <= |more| && F.AddNew(out, more[i..]) == F.AddNew(start, more)
    {
      assert more[i..][1..] == more[i + 1..];
      if more[i] !in out { out := out + [more[i]]; }
      i := i + 1;
    }
  }

  /** `join_states`: one entry of the right map at a time. */
  method JoinStates(a: F.Locals, b: F.Locals) returns (out: F.Locals)
    ensures out == F.JoinLocals(a, b)
  {
    out := a;
    var rest := b.Keys;
    while rest != {}
      invariant rest <= b.Keys && out.Keys == a.Keys + (b.Keys - rest)
      invariant forall x :: x in out && x !in rest ==> out[x] == F.JoinLocals(a, b)[x]
      invariant forall x :: x in rest && x in a ==> out[x] == a[x]
      decreases rest
    {
      var x :| x in rest;
      if x in out {
        out := out[x := out[x].(state := F.JoinState(out[x].state, b[x].state))];
      } else {
        out := out[x := b[x]];
      }
      rest := rest - {x};
    }
    assert out == F.JoinLocals(a, b);
  }

  // ----- patterns -----

  /** Binding names in a given state, with the types recorded for them. */
  ghost function BindWith(cx: F.Cx, bs: seq<Binding>, mutable: bool, state: F.Ownership): F.Cx
    decreases |bs|
  {
    if bs == [] then cx
    else BindWith(F.Bind(cx, bs[0].name, F.Local(state, mutable, bs[0].copy, bs[0].reference)), bs[1..], mutable, state)
  }

  lemma BindWithOne(cx: F.Cx, b: Binding, mutable: bool, state: F.Ownership)
    ensures BindWith(cx, [b], mutable, state) == F.Bind(cx, b.name, F.Local(state, mutable, b.copy, b.reference))
  {
    assert [b][1..] == [];
  }

  lemma {:induction false} BindWithSplit(cx: F.Cx, a: seq<Binding>, b: seq<Binding>, mutable: bool, state: F.Ownership)
    ensures BindWith(cx, a + b, mutable, state) == BindWith(BindWith(cx, a, mutable, state), b, mutable, state)
    decreases |a|
  {
    if a == [] {
      assert a + b == b;
    } else {
      assert (a + b)[0] == a[0] && (a + b)[1..] == a[1..] + b;
      BindWithSplit(F.Bind(cx, a[0].name, F.Local(state, mutable, a[0].copy, a[0].reference)), a[1..], b, mutable, state);
    }
  }

  lemma {:induction false} BindWithIsBindAll(cx: F.Cx, bs: seq<Binding>, mutable: bool)
    ensures BindWith(cx, bs, mutable, F.Owned) == F.BindAll(cx, bs, mutable)
    decreases |bs|
  {
    if bs != [] { BindWithIsBindAll(F.Bind(cx, bs[0].name, F.Local(F.Owned, mutable, bs[0].copy, bs[0].reference)), bs[1..], mutable); }
  }

  function Rest(tys: seq<Ty>, i: nat): seq<Ty> { if i <= |tys| then tys[i..] else [] }

  lemma RestStep(tys: seq<Ty>, i: nat)
    ensures F.FirstTy(Rest(tys, i)) == (if i < |tys| then tys[i] else UnitTy) && F.RestTys(Rest(tys, i)) == Rest(tys, i + 1)
  {
  }

  // A pattern under Unit binds the names it always binds, as Copy and no reference.

  ghost predicate AsUnit(us: seq<Binding>, bs: seq<Binding>) {
    |us| == |bs| && forall i :: 0 <= i < |us| ==> us[i].name == bs[i].name && us[i].copy && !us[i].reference
  }

  lemma {:induction false} UnitNames(p: Shape, ty: Ty)
    ensures AsUnit(F.Descend(p, UnitTy), F.Descend(p, ty))
    decreases p
  {
    match p
    case NameShape(_, _, sub) => if sub.Some? { UnitNames(sub.value, ty); }
    case TupleShape(xs) => UnitNamesAll(xs, if ty.TupleTy? then ty.parts else []);
    case StructShape(fields) => FieldNames(fields);
    case EnumShape(args) => UnitNamesAll(args, []);
    case RefShape(inner) => UnitNames(inner, if ty.RefTy? then ty.inner else UnitTy);
    case Silent =>
  }

  lemma {:induction false} UnitNamesAll(xs: seq<Shape>, tys: seq<Ty>)
    ensures AsUnit(F.DescendAll(xs, []), F.DescendAll(xs, tys))
    decreases xs
  {
    if xs != [] {
      UnitNames(xs[0], F.FirstTy(tys));
      UnitNamesAll(xs[1..], F.RestTys(tys));
    }
  }

  lemma {:induction false} FieldNames(fs: seq<FieldShape>)
    ensures AsUnit(F.DescendFields(fs), F.DescendFields(fs))
    decreases fs
  {
    if fs != [] {
      if fs[0].sub.Some? { UnitNames(fs[0].sub.value, UnitTy); }
      FieldNames(fs[1..]);
    }
  }

  lemma {:induction false} BindWithIsBindUninit(cx: F.Cx, us: seq<Binding>, bs: seq<Binding>, mutable: bool)
    requires AsUnit(us, bs)
    ensures BindWith(cx, us, mutable, F.Uninit) == F.BindUninit(cx, bs, mutable)
    decreases |bs|
  {
    if bs != [] { BindWithIsBindUninit(F.Bind(cx, bs[0].name, F.Local(F.Uninit, mutable, true, false)), us[1..], bs[1..], mutable); }
  }

  class BorrowCx {
    var locals: F.Locals
    var scopes: seq<seq<string>>
    var ledger: F.Ledger
    var lastUse: map<string, nat>
    var point: nat
    var pending: Option<string>
    var diag: seq<F.Diag>

    ghost function View(): F.Cx
      reads this
    {
      F.Cx(locals, scopes, ledger, lastUse, point, pending, diag)
    }

    constructor (lastUse: map<string, nat>)
      ensures View() == F.Cx(map[], [], [], lastUse, 0, None, [])
    {
      this.lastUse := lastUse;
      locals, scopes, ledger, point, pending, diag := map[], [], [], 0, None, [];
    }

    // ----- frames and bindings -----

    method PushFrame()
      modifies this`scopes
      ensures View() == F.Push(old(View()))
    {
      scopes := scopes + [[]];
    }

    method PopFrame()
      requires scopes != []
      modifies this
      ensures View() == F.Pop(old(View()))
    {
      var n := |scopes| - 1;
      var departing := F.NameSet(scopes[n]);
      scopes := scopes[..n];
      ReportOutlived(departing);
      var kept, removed := Retain(ledger, departing);
      ledger := kept;
      RecomputeRoots(removed);
      ledger := DropRooted(ledger, departing);
      locals := locals - departing;
    }

    method ReportOutlived(departing: set<string>)
      modifies this`diag
      ensures diag == old(diag) + F.OutlivesDiags(ledger, departing)
    {
      var i := 0;
      while i < |ledger|
        invariant 0 <= i <= |ledger|
        invariant diag + F.OutlivesDiags(ledger[i..], departing) == old(diag) + F.OutlivesDiags(ledger, departing)
      {
        assert ledger[i..][1..] == ledger[i + 1..];
        if F.Outlives(ledger[i], departing) { diag := diag + [F.BorrowOutlivesOwner(ledger[i].place.root)]; }
        i := i + 1;
      }
    }

    method RecomputeRoots(removed: F.Ledger)
      modifies this`locals
      ensures locals == F.RecomputeAll(old(locals), ledger, removed)
    {
      var i := 0;
      while i < |removed|
        invariant 0 <= i <= |removed|
        invariant F.RecomputeAll(locals, ledger, removed[i..]) == F.RecomputeAll(old(locals), ledger, removed)
      {
        assert removed[i..][1..] == removed[i + 1..];
        RecomputeRoot(removed[i].place.root);
        i := i + 1;
      }
    }

    method RecomputeRoot(root: string)
      modifies this`locals
      ensures locals == F.Recompute(old(locals), ledger, root)
    {
      var shared, hasMut := 0, false;
      var i := 0;
      while i < |ledger|
        invariant 0 <= i <= |ledger| && shared + F.CountShared(ledger[i..], root) == F.CountShared(ledger, root)
        invariant hasMut == exists r :: r in ledger[..i] && r.place.root == root && r.kind == F.Mut
      {
        var r := ledger[i];
        assert ledger[i..][1..] == ledger[i + 1..] && ledger[..i + 1] == ledger[..i] + [r];
        if r.place.root == root {
          if r.kind == F.Mut { hasMut := true; } else { shared := shared + 1; }
        }
        i := i + 1;
      }
      assert ledger[..|ledger|] == ledger;
      if root in locals && !locals[root].state.Moved? && !locals[root].state.Uninit? {
        locals := locals[root := locals[root].(state :=
          if hasMut then F.BorrowedMut else if shared > 0 then F.Borrowed(shared) else F.Owned)];
      }
    }

    method BindLocal(name: string, local: F.Local)
      modifies this
      ensures View() == F.Bind(old(View()), name, local)
    {
      locals := locals[name := local];
      var n := |scopes|;
      if n > 0 { scopes := scopes[n - 1 := scopes[n - 1] + [name]]; }
    }

    /** Parameters, one after another. */
    method BindParams(bs: seq<Binding>)
      modifies this
      ensures View() == F.BindAll(old(View()), bs, false)
    {
      var i := 0;
      while i < |bs|
        invariant 0 <= i <= |bs| && F.BindAll(View(), bs[i..], false) == F.BindAll(old(View()), bs, false)
      {
        assert bs[i..][1..] == bs[i + 1..];
        BindLocal(bs[i].name, F.Local(F.Owned, false, bs[i].copy, bs[i].reference));
        i := i + 1;
      }
    }

    /** `bind_pattern_inner_mut`: down the pattern, with the type that reaches it. */
    method BindPattern(p: Shape, ty: Ty, mutable: bool, state: F.Ownership)
      modifies this
      ensures View() == BindWith(old(View()), F.Descend(p, ty), mutable, state)
      decreases p, 0
    {
      match p
      case NameShape(name, actual, sub) =>
        BindLocal(name, F.Local(state, mutable, F.CopyTy(ty), ty.RefTy?));
        if sub.Some? { BindPattern(sub.value, ty, mutable, state); }
        BindWithSplit(old(View()), [F.BindingOf(name, ty, actual)], if sub.None? then [] else F.Descend(sub.value, ty), mutable, state);
        BindWithOne(old(View()), F.BindingOf(name, ty, actual), mutable, state);
      case TupleShape(xs) => BindPatterns(xs, if ty.TupleTy? then ty.parts else [], mutable, state);
      case StructShape(fields) => BindFields(fields, mutable, state);
      case EnumShape(args) => BindPatterns(args, [], mutable, state);
      case RefShape(inner) => BindPattern(inner, if ty.RefTy? then ty.inner else UnitTy, mutable, state);
      case Silent =>
    }

    method BindPatterns(xs: seq<Shape>, parts: seq<Ty>, mutable: bool, state: F.Ownership)
      modifies this
      ensures View() == BindWith(old(View()), F.DescendAll(xs, parts), mutable, state)
      decreases xs
    {
      var i := 0;
      while i < |xs|
        invariant 0 <= i <= |xs|
        invariant BindWith(View(), F.DescendAll(xs[i..], Rest(parts, i)), mutable, state)
               == BindWith(old(View()), F.DescendAll(xs, parts), mutable, state)
      {
        assert xs[i..][0] == xs[i] && xs[i..][1..] == xs[i + 1..];
        var ty := if i < |parts| then parts[i] else UnitTy;
        RestStep(parts, i);
        BindWithSplit(View(), F.Descend(xs[i], ty), F.DescendAll(xs[i + 1..], Rest(parts, i + 1)), mutable, state);
        BindPattern(xs[i], ty, mutable, state);
        i := i + 1;
      }
    }

    method BindFields(fields: seq<FieldShape>, mutable: bool, state: F.Ownership)
      modifies this
      ensures View() == BindWith(old(View()), F.DescendFields(fields), mutable, state)
      decreases fields
    {
      var i := 0;
      while i < |fields|
        invariant 0 <= i <= |fields|
        invariant BindWith(View(), F.DescendFields(fields[i..]), mutable, state)
               == BindWith(old(View()), F.DescendFields(fields), mutable, state)
      {
        var f := fields[i];
        assert fields[i..][0] == f && fields[i..][1..] == fields[i + 1..];
        BindWithSplit(View(), F.DescendField(f), F.DescendFields(fields[i + 1..]), mutable, state);
        if f.sub.Some? {
          BindPattern(f.sub.value, UnitTy, mutable, state);
        } else {
          BindWithOne(View(), F.BindingOf(f.name, UnitTy, f.actual), mutable, state);
          BindLocal(f.name, F.Local(state, mutable, true, false));
        }
        i := i + 1;
      }
    }

    method BindValue(p: Pattern, mutable: bool)
      modifies this
      ensures View() == F.BindAll(old(View()), F.Bindings(p), mutable)
    {
      BindPattern(p.shape, p.ty, mutable, F.Owned);
      BindWithIsBindAll(old(View()), F.Bindings(p), mutable);
    }

    /** Without a value the pattern gets the type Unit. */
    method BindUnset(p: Pattern, mutable: bool)
      modifies this
      ensures View() == F.BindUninit(old(View()), F.Bindings(p), mutable)
    {
      BindPattern(p.shape, UnitTy, mutable, F.Uninit);
      UnitNames(p.shape, p.ty);
      BindWithIsBindUninit(old(View()), F.Descend(p.shape, UnitTy), F.Bindings(p), mutable);
    }

    // ----- events -----

    method DoUse(x: string)
      modifies this`diag
      ensures View() == F.DoUse(old(View()), x)
    {
      if x in locals {
        match locals[x].state
        case Moved => diag := diag + [F.UseAfterMove(x)];
        case Uninit => diag := diag + [F.UseOfUninit(x)];
        case _ =>
      }
    }

    method DoMove(x: string)
      modifies this`diag, this`locals
      ensures View() == F.DoMove(old(View()), x)
    {
      var sub := exists r :: r in ledger && r.place.root == x && r.place.projs != [];
      var whole := exists r :: r in ledger && r.place.root == x && r.place.projs == [];
      if x in locals {
        match locals[x].state
        case Moved => diag := diag + [F.UseAfterMove(x)];
        case Uninit => diag := diag + [F.UseOfUninit(x)];
        case Owned =>
          if sub { diag := diag + [F.MoveOutOfBorrow(x)]; }
          if !locals[x].copy { locals := locals[x := locals[x].(state := F.Moved)]; }
        case _ =>
          if sub && !whole { diag := diag + [F.MoveOutOfBorrow(x)]; } else { diag := diag + [F.CannotMoveBorrowed(x)]; }
      }
    }

    method DoAssign(x: string)
      modifies this`diag, this`locals
      ensures View() == F.DoAssign(old(View()), x)
    {
      if x in locals {
        if !locals[x].mutable { diag := diag + [F.AssignToImmut(x)]; }
        locals := locals[x := locals[x].(state := F.Owned)];
      }
    }

    method TryPlaceBorrow(place: Place, kind: F.BorrowKind)
      modifies this
      ensures View() == F.TryBorrow(old(View()), place, kind)
    {
      var x := place.root;
      if kind == F.Mut && x in locals && !locals[x].mutable { diag := diag + [F.MutBorrowOfImmut(x)]; }
      if x in locals && locals[x].state.Moved? {
        diag := diag + [F.BorrowAfterMove(x)];
        return;
      }
      if x in locals && locals[x].state.Uninit? {
        diag := diag + [F.UseOfUninit(x)];
        return;
      }
      var anyMut, anyShared := ScanConflicts(ledger, place);
      match (kind, anyMut, anyShared) {
        case (Mut, true, _) => diag := diag + [F.TwoMutBorrows(x)];
        case (Mut, false, true) => diag := diag + [F.MutBorrowWhileShared(x)];
        case (Shared, true, _) => diag := diag + [F.SharedBorrowWhileMut(x)];
        case _ =>
      }
      ledger := ledger + [F.Loan(place, kind, pending)];
      if x in locals { locals := locals[x := locals[x].(state := F.AfterBorrow(locals[x].state, kind))]; }
    }

    method DoBorrow(x: string, kind: F.BorrowKind)
      modifies this
      ensures View() == F.DoBorrow(old(View()), x, kind)
    {
      if x in locals && locals[x].reference { DoUse(x); } else { TryPlaceBorrow(Place(x, []), kind); }
    }

    method DecayAfterUse(x: string)
      modifies this
      ensures View() == F.DecayAfterUse(old(View()), x)
    {
      if x in lastUse && point > lastUse[x] {
        var kept, removed := Retain(ledger, {x});
        ledger := kept;
        RecomputeRoots(removed);
      }
    }

    // ----- the walk -----

    method WalkPath(segs: seq<string>, pos: F.Position)
      modifies this
      ensures View() == F.WalkPath(old(View()), segs, pos)
    {
      if segs != [] {
        point := point + 1;
        TouchPath(segs, pos);
        DecayAfterUse(segs[0]);
      }
    }

    method TouchPath(segs: seq<string>, pos: F.Position)
      requires segs != []
      modifies this
      ensures View() == F.TouchPath(old(View()), segs, pos)
    {
      if segs[0] in locals {
        if |segs| == 1 { TouchLocal(segs[0], pos); } else { TouchPart(segs[0], pos); }
      }
    }

    method TouchLocal(x: string, pos: F.Position)
      requires x in locals
      modifies this
      ensures View() == F.Touch(old(View()), x, pos)
    {
      match pos
      case Use => DoUse(x);
      case Moving => DoMove(x);
      case ForShared => DoBorrow(x, F.Shared);
      case ForMut => DoBorrow(x, F.Mut);
      case Target => DoAssign(x);
    }

    method TouchPart(x: string, pos: F.Position)
      requires x in locals
      modifies this
      ensures View() == F.TouchPart(old(View()), x, pos)
    {
      match pos
      case Moving => DoMove(x);
      case Target => if !locals[x].mutable { diag := diag + [F.AssignToImmut(x)]; }
      case _ => DoUse(x);
    }

    method PointsOnly(e: Expr)
      modifies this
      ensures View() == F.PointsOnly(e, old(View()))
      decreases e
    {
      match e
      case Path(segs) =>
        if segs != [] {
          point := point + 1;
          DecayAfterUse(segs[0]);
        }
      case Field(r, _) => PointsOnly(r);
      case Unary(_, _, r) => PointsOnly(r);
      case Index(r, i) => PointsOnly(r); PointsOnly(i);
      case _ =>
    }

    method WalkExpr(e: Expr, pos: F.Position)
      modifies this
      ensures View() == F.Walk(e, pos, old(View()))
      decreases e, 1, 0
    {
      match e
      case Path(segs) => WalkPath(segs, pos);
      case Literal =>
      case BlockExpr(b) => WalkBlock(b);
      case Tuple(xs) => WalkAll(xs);
      case Binary(_, _) => WalkTwo(e, pos);
      case Assign(_, _, _, _) => WalkAssign(e, pos);
      case Unary(_, _, _) => WalkUnary(e, pos);
      case Borrow(_, _) => WalkBorrow(e, pos);
      case Move(_) => WalkMove(e, pos);
      case Call(_, _, _) => WalkCall(e, pos);
      case MethodCall(_, _) => WalkCall(e, pos);
      case Field(r, _) => WalkExpr(r, F.Use);
      case Index(_, _) => WalkTwo(e, pos);
      case If(_, _, _) => WalkIf(e, pos);
      case Match(_, _) => WalkMatch(e, pos);
      case For(_, _, _) => WalkLoop(e, pos);
      case While(_, _) => WalkLoop(e, pos);
      case Loop(_) => WalkLoop(e, pos);
      case Return(_) => WalkReturn(e, pos);
      case Lambda(_, _) => WalkLambda(e, pos);
    }

    /** `check_deref_move`. */
    method CheckDerefMove(e: Expr)
      requires e.Unary?
      modifies this`diag
      ensures View() == F.DerefMove(old(View()), e)
    {
      if e.deref && e.owning { diag := diag + [F.MoveOutOfRef]; }
    }

    method WalkUnary(e: Expr, pos: F.Position)
      requires e.Unary?
      modifies this
      ensures View() == F.Walk(e, pos, old(View()))
      decreases e, 0, 0
    {
      if pos.Use? { CheckDerefMove(e); }
      WalkExpr(e.operand, F.Use);
    }

    method WalkTwo(e: Expr, pos: F.Position)
      requires e.Binary? || e.Index?
      modifies this
      ensures View() == F.Walk(e, pos, old(View()))
      decreases e, 0, 0
    {
      if e.Binary? {
        WalkExpr(e.lhs, F.Use);
        WalkExpr(e.rhs, F.Use);
      } else {
        WalkExpr(e.receiver, F.Use);
        WalkExpr(e.idx, F.Use);
      }
    }

    method WalkCall(e: Expr, pos: F.Position)
      requires e.Call? || e.MethodCall?
      modifies this
      ensures View() == F.Walk(e, pos, old(View()))
      decreases e, 0, 0
    {
      if e.Call? {
        WalkExpr(e.callee, F.Use);
        WalkArgs(e.args, e.params);
      } else {
        WalkExpr(e.receiver, F.ForShared);
        WalkAll(e.args);
      }
    }

    method WalkAssign(e: Expr, pos: F.Position)
      requires e.Assign?
      modifies this
      ensures View() == F.Walk(e, pos, old(View()))
      decreases e, 0, 0
    {
      WalkExpr(e.lhs, F.Target);
      if !e.compound && e.lhs.Path? && |e.lhs.segs| == 1 {
        var prev := pending;
        pending := Some(e.lhs.segs[0]);
        WalkExpr(e.rhs, F.Use);
        pending := prev;
      } else {
        WalkExpr(e.rhs, F.Use);
      }
    }

    method WalkBorrow(e: Expr, pos: F.Position)
      requires e.Borrow?
      modifies this
      ensures View() == F.Walk(e, pos, old(View()))
      decreases e, 0, 0
    {
      var place := F.PlaceOf(e.inner, locals.Keys);
      F.PlaceIsTruncated(e.inner, locals.Keys);
      if place.Some? {
        TryPlaceBorrow(place.value, if e.mutable then F.Mut else F.Shared);
        PointsOnly(e.inner);
      } else {
        WalkExpr(e.inner, if e.mutable then F.ForMut else F.ForShared);
      }
    }

    method WalkMove(e: Expr, pos: F.Position)
      requires e.Move?
      modifies this
      ensures View() == F.Walk(e, pos, old(View()))
      decreases e, 0, 0
    {
      if e.inner.Unary? && e.inner.deref {
        CheckDerefMove(e.inner);
        WalkExpr(e.inner.operand, F.Use);
      } else {
        WalkExpr(e.inner, F.Moving);
      }
    }

    method WalkIf(e: Expr, pos: F.Position)
      requires e.If?
      modifies this
      ensures View() == F.Walk(e, pos, old(View()))
      decreases e, 0, 1
    {
      Branch(e);
    }

    method Branch(e: Expr)
      requires e.If?
      modifies this
      ensures View() == F.WalkIf(e, old(View()))
      decreases e, 0, 0
    {
      WalkExpr(e.cond, F.Use);
      var localsSnap, ledgerSnap := locals, ledger;
      WalkBlock(e.thn);
      ElseBranch(e.els, localsSnap, ledgerSnap);
    }

    /** The other branch from the snapshot, joined with what the first one left. */
    method ElseBranch(els: Option<Expr>, localsSnap: F.Locals, ledgerSnap: F.Ledger)
      modifies this
      ensures
        var cx := old(View());
        var base := cx.(locals := localsSnap, ledger := ledgerSnap);
        View() == F.JoinInto(if els.None? then base else F.Walk(els.value, F.Use, base), cx)
      decreases els, 2, 0
    {
      var localsThen, ledgerThen := locals, ledger;
      locals, ledger := localsSnap, ledgerSnap;
      if els.Some? { WalkExpr(els.value, F.Use); }
      locals := JoinStates(locals, localsThen);
      ledger := JoinLedgers(ledger, ledgerThen);
    }

    method WalkMatch(e: Expr, pos: F.Position)
      requires e.Match?
      modifies this
      ensures View() == F.Walk(e, pos, old(View()))
      decreases e, 0, 0
    {
      WalkExpr(e.scrutinee, F.Use);
      WalkArms(e.arms);
    }

    method WalkArms(arms: seq<Arm>)
      modifies this
      ensures View() == F.WalkArms(arms, old(View()), true, old(View()))
      decreases arms, 1, 0
    {
      ghost var base := View();
      var baseLocals, baseLedger := locals, ledger;
      var i := 0;
      while i < |arms|
        invariant 0 <= i <= |arms| && F.WalkArms(arms[i..], base, i == 0, View()) == F.WalkArms(arms, base, true, base)
      {
        assert arms[i..][0] == arms[i] && arms[i..][1..] == arms[i + 1..];
        WalkNextArm(arms[i], baseLocals, baseLedger, i == 0);
        i := i + 1;
      }
    }

    /** An arm from the base state; what it leaves is joined with what is there. */
    method WalkNextArm(arm: Arm, baseLocals: F.Locals, baseLedger: F.Ledger, first: bool)
      modifies this
      ensures View() == F.Merge(first, old(View()), F.WalkArm(arm, old(View()).(locals := baseLocals, ledger := baseLedger)))
      decreases arm, 2, 0
    {
      var joined, joinedLedger := locals, ledger;
      locals, ledger := baseLocals, baseLedger;
      WalkArm(arm);
      if !first {
        locals := JoinStates(joined, locals);
        ledger := JoinLedgers(joinedLedger, ledger);
      }
    }

    method WalkArm(arm: Arm)
      modifies this
      ensures View() == F.WalkArm(arm, old(View()))
      decreases arm, 1, 0
    {
      PushFrame();
      BindValue(arm.pat, false);
      F.BindFrames(F.Push(old(View())), F.Bindings(arm.pat), false);
      if arm.guard.Some? { WalkExpr(arm.guard.value, F.Use); }
      WalkExpr(arm.body, F.Use);
      PopFrame();
    }

    method WalkLoop(e: Expr, pos: F.Position)
      requires e.For? || e.While? || e.Loop?
      modifies this
      ensures View() == F.Walk(e, pos, old(View()))
      decreases e, 0, 1
    {
      Repeat(e);
    }

    method Repeat(e: Expr)
      requires e.For? || e.While? || e.Loop?
      modifies this
      ensures View() == F.WalkLoop(e, old(View()))
      decreases e, 0, 0
    {
      if e.For? { WalkExpr(e.iter, F.Use); }
      if e.While? { WalkExpr(e.cond, F.Use); }
      LoopFixedPoint(if e.For? then Some(e.pat) else None, e.body);
    }

    /** At most 16 passes until the record count settles, then a last one. */
    method LoopFixedPoint(pat: Option<Pattern>, body: Block)
      modifies this
      ensures View() == F.LoopFix(pat, body, old(locals), old(ledger), |old(ledger)|, 16, old(View()))
      decreases body, 2, 0
    {
      var preLocals, preLedger := locals, ledger;
      var prev: nat := |ledger|;
      var left: nat := 16;
      while left > 0
        invariant left <= 16
        invariant F.LoopFix(pat, body, preLocals, preLedger, prev, left, View())
               == F.LoopFix(pat, body, preLocals, preLedger, |preLedger|, 16, old(View()))
      {
        JoinedPass(pat, body, preLocals, preLedger);
        if |ledger| == prev { return; }
        prev := |ledger|;
        left := left - 1;
      }
      JoinedPass(pat, body, preLocals, preLedger);
    }

    method JoinedPass(pat: Option<Pattern>, body: Block, preLocals: F.Locals, preLedger: F.Ledger)
      modifies this
      ensures View() == F.LoopStep(pat, body, preLocals, preLedger, old(View()))
      decreases body, 1, 1
    {
      LoopPass(pat, body);
      locals := JoinStates(preLocals, locals);
      ledger := JoinLedgers(preLedger, ledger);
    }

    method LoopPass(pat: Option<Pattern>, body: Block)
      modifies this
      ensures View() == F.LoopOnce(pat, body, old(View()))
      decreases body, 1, 0
    {
      if pat.None? {
        WalkBlock(body);
      } else {
        PushFrame();
        BindValue(pat.value, false);
        F.BindFrames(F.Push(old(View())), F.Bindings(pat.value), false);
        WalkBlock(body);
        PopFrame();
      }
    }

    method WalkLambda(e: Expr, pos: F.Position)
      requires e.Lambda?
      modifies this
      ensures View() == F.Walk(e, pos, old(View()))
      decreases e, 0, 1
    {
      Enclose(e);
    }

    method Enclose(e: Expr)
      requires e.Lambda?
      modifies this
      ensures View() == F.WalkLambda(e, old(View()))
      decreases e, 0, 0
    {
      var localsSnap, ledgerSnap := locals, ledger;
      PushFrame();
      BindParams(F.UnitBindings(e.inputs));
      F.BindFrames(F.Push(old(View())), F.UnitBindings(e.inputs), false);
      WalkBlock(e.body);
      PopFrame();
      locals, ledger := localsSnap, ledgerSnap;
    }

    method WalkReturn(e: Expr, pos: F.Position)
      requires e.Return?
      modifies this
      ensures View() == F.Walk(e, pos, old(View()))
      decreases e, 0, 0
    {
      if e.value.Some? { WalkExpr(e.value.value, F.Moving); }
    }

    method WalkAll(es: seq<Expr>)
      modifies this
      ensures View() == F.WalkAll(es, old(View()))
      decreases es, 1, 0
    {
      var i := 0;
      while i < |es|
        invariant 0 <= i <= |es| && F.WalkAll(es[i..], View()) == F.WalkAll(es, old(View()))
      {
        assert es[i..][0] == es[i] && es[i..][1..] == es[i + 1..];
        WalkExpr(es[i], F.Use);
        i := i + 1;
      }
    }

    method WalkArgs(args: seq<Expr>, params: seq<Passing>)
      modifies this
      ensures View() == F.WalkArgs(args, params, old(View()))
      decreases args, 1, 0
    {
      var i := 0;
      var ps := params;
      while i < |args|
        invariant 0 <= i <= |args| && F.WalkArgs(args[i..], ps, View()) == F.WalkArgs(args, params, old(View()))
      {
        assert args[i..][0] == args[i] && args[i..][1..] == args[i + 1..];
        WalkExpr(args[i], F.PositionOf(ps));
        ps := if ps == [] then [] else ps[1..];
        i := i + 1;
      }
    }

    method WalkBlock(b: Block)
      modifies this
      ensures View() == F.WalkBlock(b, old(View()))
      decreases b, 0, 0
    {
      PushFrame();
      ghost var start := View();
      var i := 0;
      while i < |b.stmts|
        invariant 0 <= i <= |b.stmts| && F.WalkStmts(b.stmts[i..], View()) == F.WalkStmts(b.stmts, start)
      {
        assert b.stmts[i..][0] == b.stmts[i] && b.stmts[i..][1..] == b.stmts[i + 1..];
        WalkStmt(b.stmts[i]);
        i := i + 1;
      }
      if b.tail.Some? { WalkExpr(b.tail.value, F.Use); }
      PopFrame();
    }

    method WalkStmt(s: Stmt)
      modifies this
      ensures View() == F.WalkStmt(s, old(View()))
      decreases s, 1, 0
    {
      match s
      case Let(pat, init, mutable) =>
        if init.None? {
          BindUnset(pat, mutable);
        } else {
          var prev := pending;
          pending := F.SingleName(pat);
          WalkExpr(init.value, F.Use);
          pending := prev;
          BindValue(pat, mutable);
        }
      case ExprStmt(e) => WalkExpr(e, F.Use);
    }
  }
}
