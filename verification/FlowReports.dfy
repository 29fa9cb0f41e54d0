/** What each event of the checker reports, and when. */
module FlowReports {
  import opened Wrappers
  import opened Hir
  import opened Places
  import F = Flow

  /** The reports of a step. */
  function Added(cx: F.Cx, r: F.Cx): seq<F.Diag>
    requires cx.diag <= r.diag
  {
    r.diag[|cx.diag|..]
  }

  predicate IsMoved(cx: F.Cx, x: string) { x in cx.locals && cx.locals[x].state.Moved? }

  predicate IsUnset(cx: F.Cx, x: string) { x in cx.locals && cx.locals[x].state.Uninit? }

  predicate Immutable(cx: F.Cx, x: string) { x in cx.locals && !cx.locals[x].mutable }

  lemma AddedOne(cx: F.Cx, ds: seq<F.Diag>)
    ensures Added(cx, cx.(diag := cx.diag + ds)) == ds
  {
  }

  /** A read reports a moved or an unset local, and nothing else. */
  lemma UseReports(cx: F.Cx, x: string)
    ensures
      var r := F.DoUse(cx, x);
      var ds := Added(cx, r);
      && r == cx.(diag := r.diag) && |ds| <= 1
      && (F.UseAfterMove(x) in ds <==> IsMoved(cx, x)) && (F.UseOfUninit(x) in ds <==> IsUnset(cx, x))
      && (ds != [] ==> IsMoved(cx, x) || IsUnset(cx, x))
  {
  }

  /** An assignment of a whole local makes it owned, and is reported exactly if it was
      not declared mutable; of a part, it changes nothing and is reported alike. */
  lemma AssignReports(cx: F.Cx, x: string)
    requires x in cx.locals
    ensures
      var r := F.DoAssign(cx, x);
      && Added(cx, r) == (if Immutable(cx, x) then [F.AssignToImmut(x)] else [])
      && r.locals == cx.locals[x := cx.locals[x].(state := F.Owned)] && r.ledger == cx.ledger
    ensures
      var r := F.TouchPart(cx, x, F.Target);
      r == cx.(diag := r.diag) && Added(cx, r) == (if Immutable(cx, x) then [F.AssignToImmut(x)] else [])
  {
  }

  /** A record of this kind that has a common extension with the place. */
  ghost predicate Against(cx: F.Cx, place: Place, kind: F.BorrowKind) {
    exists r :: r in cx.ledger && r.kind == kind && HasCommon(r.place, place)
  }

  ghost predicate HasCommon(a: Place, b: Place) {
    exists c: Place :: c.root == a.root == b.root && a.projs <= c.projs && b.projs <= c.projs
  }

  lemma AgainstIsOverlap(cx: F.Cx, place: Place, kind: F.BorrowKind)
    ensures Against(cx, place, kind) <==> F.AnyOverlap(cx.ledger, place, kind)
  {
    forall r | r in cx.ledger ensures HasCommon(r.place, place) <==> Overlaps(r.place, place) {
      OverlapIffCommonExtension(r.place, place);
    }
    if F.AnyOverlap(cx.ledger, place, kind) {
      var r :| r in cx.ledger && Overlaps(r.place, place) && r.kind == kind;
      assert HasCommon(r.place, place);
    }
  }

  function Warned(cx: F.Cx, x: string, kind: F.BorrowKind): seq<F.Diag> {
    if kind == F.Mut && Immutable(cx, x) then [F.MutBorrowOfImmut(x)] else []
  }

  lemma BorrowAdds(cx: F.Cx, place: Place, kind: F.BorrowKind)
    ensures
      var x := place.root;
      Added(cx, F.TryBorrow(cx, place, kind))
      == Warned(cx, x, kind) + (if F.Refusal(cx, x) != [] then F.Refusal(cx, x) else F.Conflict(cx.ledger, place, kind))
  {
    var x, warned := place.root, Warned(cx, place.root, kind);
    var rest := if F.Refusal(cx, x) != [] then F.Refusal(cx, x) else F.Conflict(cx.ledger, place, kind);
    assert F.TryBorrow(cx, place, kind).diag == cx.diag + warned + rest by { assert cx.diag + [] == cx.diag; }
    assert cx.diag + warned + rest == cx.diag + (warned + rest);
  }

  /** A borrow of a moved or an unset local is refused; any other is recorded under the
      pending name, with the conflicts that the records give. */
  lemma BorrowReports(cx: F.Cx, place: Place, kind: F.BorrowKind)
    ensures
      var r := F.TryBorrow(cx, place, kind);
      var ds, x := Added(cx, r), place.root;
      var refused := IsMoved(cx, x) || IsUnset(cx, x);
      && r.ledger == (if refused then cx.ledger else cx.ledger + [F.Loan(place, kind, cx.pending)])
      && (F.MutBorrowOfImmut(x) in ds <==> kind == F.Mut && Immutable(cx, x))
      && (F.BorrowAfterMove(x) in ds <==> IsMoved(cx, x)) && (F.UseOfUninit(x) in ds <==> IsUnset(cx, x))
  {
    Membership(cx, place, kind, F.MutBorrowOfImmut(place.root));
    Membership(cx, place, kind, F.BorrowAfterMove(place.root));
    Membership(cx, place, kind, F.UseOfUninit(place.root));
    ConflictOnly(cx.ledger, place, kind);
  }

  lemma Membership(cx: F.Cx, place: Place, kind: F.BorrowKind, d: F.Diag)
    ensures
      d in Added(cx, F.TryBorrow(cx, place, kind)) <==>
        d in Warned(cx, place.root, kind)
        || (if IsMoved(cx, place.root) || IsUnset(cx, place.root) then d in F.Refusal(cx, place.root) else d in F.Conflict(cx.ledger, place, kind))
  {
    BorrowAdds(cx, place, kind);
  }

  lemma ConflictOnly(ledger: F.Ledger, place: Place, kind: F.BorrowKind)
    ensures forall d :: d in F.Conflict(ledger, place, kind) ==> d.TwoMutBorrows? || d.MutBorrowWhileShared? || d.SharedBorrowWhileMut?
  {
  }

  lemma ConflictReports(cx: F.Cx, place: Place, kind: F.BorrowKind)
    ensures
      var ds, x := Added(cx, F.TryBorrow(cx, place, kind)), place.root;
      var recorded := !IsMoved(cx, x) && !IsUnset(cx, x);
      && (F.TwoMutBorrows(x) in ds <==> recorded && kind == F.Mut && Against(cx, place, F.Mut))
      && (F.MutBorrowWhileShared(x) in ds <==> recorded && kind == F.Mut && Against(cx, place, F.Shared) && !Against(cx, place, F.Mut))
      && (F.SharedBorrowWhileMut(x) in ds <==> recorded && kind == F.Shared && Against(cx, place, F.Mut))
  {
    Membership(cx, place, kind, F.TwoMutBorrows(place.root));
    Membership(cx, place, kind, F.MutBorrowWhileShared(place.root));
    Membership(cx, place, kind, F.SharedBorrowWhileMut(place.root));
    ConflictIs(cx, place, kind);
  }

  lemma ConflictIs(cx: F.Cx, place: Place, kind: F.BorrowKind)
    ensures
      var ds, x := F.Conflict(cx.ledger, place, kind), place.root;
      && (F.TwoMutBorrows(x) in ds <==> kind == F.Mut && Against(cx, place, F.Mut))
      && (F.MutBorrowWhileShared(x) in ds <==> kind == F.Mut && Against(cx, place, F.Shared) && !Against(cx, place, F.Mut))
      && (F.SharedBorrowWhileMut(x) in ds <==> kind == F.Shared && Against(cx, place, F.Mut))
  {
    AgainstIsOverlap(cx, place, F.Mut);
    AgainstIsOverlap(cx, place, F.Shared);
  }

  /** Reading through a reference to something that is not Copy is reported in a use and
      under `move`, and nowhere else. */
  lemma DerefReports(e: Expr, pos: F.Position, cx: F.Cx)
    requires e.Unary?
    ensures
      var cx1 := if e.deref && e.owning then cx.(diag := cx.diag + [F.MoveOutOfRef]) else cx;
      && F.Walk(e, pos, cx) == F.Walk(e.operand, F.Use, if pos.Use? then cx1 else cx)
      && (e.deref ==> F.Walk(Move(e), pos, cx) == F.Walk(e.operand, F.Use, cx1))
  {
    assert F.Walk(e, pos, cx) == F.WalkUnary(e, pos, cx);
    assert F.Walk(Move(e), pos, cx) == F.WalkMove(Move(e), cx);
  }

  /** Arguments beyond the signature, and those by value, are used; the others borrowed. */
  lemma ArgumentsGoBy(rest: seq<Passing>)
    ensures F.PositionOf([]) == F.Use && F.PositionOf([ByValue] + rest) == F.Use
    ensures F.PositionOf([ByRef] + rest) == F.ForShared && F.PositionOf([ByMut] + rest) == F.ForMut
  {
  }

  // ----- the states that records give -----

  /** The positions of the shared records of a local. */
  function SharedAt(ledger: F.Ledger, x: string): set<nat> {
    set i: nat | i < |ledger| && ledger[i].place.root == x && ledger[i].kind == F.Shared
  }

  lemma {:induction false} CountJoins(a: F.Ledger, b: F.Ledger, x: string)
    ensures F.CountShared(a + b, x) == F.CountShared(a, x) + F.CountShared(b, x)
    decreases |a|
  {
    if a == [] {
      assert a + b == b;
    } else {
      assert (a + b)[1..] == a[1..] + b;
      CountJoins(a[1..], b, x);
    }
  }

  lemma {:induction false} CountIsSize(ledger: F.Ledger, x: string)
    ensures F.CountShared(ledger, x) == |SharedAt(ledger, x)|
    decreases |ledger|
  {
    if ledger == [] {
      assert SharedAt(ledger, x) == {};
    } else {
      var n := |ledger| - 1;
      var before, last := ledger[..n], ledger[n];
      var here: set<nat> := if last.place.root == x && last.kind == F.Shared then {n} else {};
      CountIsSize(before, x);
      assert ledger == before + [last] && [last][1..] == [];
      CountJoins(before, [last], x);
      assert F.CountShared([last], x) == |here|;
      assert SharedAt(ledger, x) == SharedAt(before, x) + here && SharedAt(before, x) !! here;
    }
  }

  /** Mutably borrowed if a record says so, shared as often as there are records, and
      owned if there are none. */
  ghost predicate StateFits(s: F.Ownership, ledger: F.Ledger, x: string) {
    var exclusive := exists r :: r in ledger && r.place.root == x && r.kind == F.Mut;
    s == if exclusive then F.BorrowedMut else if SharedAt(ledger, x) == {} then F.Owned else F.Borrowed(|SharedAt(ledger, x)|)
  }

  predicate Usable(locals: F.Locals, x: string) { x in locals && !locals[x].state.Moved? && !locals[x].state.Uninit? }

  /** Each local of which a record was removed gets the state that the rest gives. */
  lemma {:induction false} Recomputed(locals: F.Locals, ledger: F.Ledger, removed: F.Ledger, x: string)
    requires Usable(locals, x) && exists r :: r in removed && r.place.root == x
    ensures var after := F.RecomputeAll(locals, ledger, removed); x in after && StateFits(after[x].state, ledger, x)
    decreases |removed|
  {
    var next := F.Recompute(locals, ledger, removed[0].place.root);
    if removed[0].place.root == x {
      CountIsSize(ledger, x);
      StaysFit(next, ledger, removed[1..], x);
    } else {
      var r :| r in removed && r.place.root == x;
      assert r in removed[1..];
      Recomputed(next, ledger, removed[1..], x);
    }
  }

  lemma {:induction false} StaysFit(locals: F.Locals, ledger: F.Ledger, removed: F.Ledger, x: string)
    requires Usable(locals, x) && StateFits(locals[x].state, ledger, x)
    ensures var after := F.RecomputeAll(locals, ledger, removed); x in after && StateFits(after[x].state, ledger, x)
    decreases |removed|
  {
    if removed != [] {
      CountIsSize(ledger, x);
      StaysFit(F.Recompute(locals, ledger, removed[0].place.root), ledger, removed[1..], x);
    }
  }

  /** After the last read of a name: what it had borrowed is as free as the remaining
      records leave it. */
  lemma DecayStates(cx: F.Cx, y: string, x: string)
    requires y in cx.lastUse && cx.point > cx.lastUse[y] && Usable(cx.locals, x)
    requires exists r :: r in cx.ledger && r.borrower == Some(y) && r.place.root == x
    ensures var r := F.DecayAfterUse(cx, y); x in r.locals && StateFits(r.locals[x].state, r.ledger, x)
  {
    var r :| r in cx.ledger && r.borrower == Some(y) && r.place.root == x;
    assert r in F.Held(cx.ledger, {y});
    Recomputed(cx.locals, F.Without(cx.ledger, {y}), F.Held(cx.ledger, {y}), x);
  }

  /** So after a scope whose names had borrowed it. */
  lemma PopStates(cx: F.Cx, x: string)
    requires cx.scopes != [] && Usable(cx.locals, x) && x !in cx.scopes[|cx.scopes| - 1]
    requires exists r :: r in cx.ledger && r.borrower.Some? && r.borrower.value in cx.scopes[|cx.scopes| - 1] && r.place.root == x
    ensures
      var names := F.NameSet(cx.scopes[|cx.scopes| - 1]);
      x in F.Pop(cx).locals && StateFits(F.Pop(cx).locals[x].state, F.Without(cx.ledger, names), x)
  {
    var names := F.NameSet(cx.scopes[|cx.scopes| - 1]);
    var r :| r in cx.ledger && r.borrower.Some? && r.borrower.value in cx.scopes[|cx.scopes| - 1] && r.place.root == x;
    assert r in F.Held(cx.ledger, names);
    Recomputed(cx.locals, F.Without(cx.ledger, names), F.Held(cx.ledger, names), x);
  }
}
