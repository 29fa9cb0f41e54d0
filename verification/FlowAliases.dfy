/** Three whole bodies in which two live mutable references go unnoticed: a copied
    reference, a refused borrow, and a field reached with and without a dereference. */
module FlowAliases {
  import opened Wrappers
  import opened Hir
  import opened Places
  import opened Nll
  import opened FlowState
  import opened FlowPaths
  import opened FlowSafety
  import opened FlowTheorems
  import opened FlowBodies
  import opened FlowSteps
  import F = Flow

  // ----- a copied reference -----

  function Copying(x: string, r: string, s: string, q: string): seq<Stmt> {
    [LetValue(x, false, true)] + ([LetRef(r, true, Lend(x, true))] + ([LetRef(s, true, Var(r))] + Lending(x, s, q)))
  }

  /** `let q = &mut x; s; q` */
  function Lending(x: string, s: string, q: string): seq<Stmt> {
    [LetRef(q, true, Lend(x, true))] + ([ExprStmt(Var(s))] + ([ExprStmt(Var(q))] + []))
  }

  lemma LendingReads(x: string, s: string, q: string)
    ensures ReadsStmts(Lending(x, s, q)) == [x, s, q]
  {
    StmtReads(x, q, true);
    StmtReads(s, q, true);
    StmtReads(q, q, true);
    FirstReads(ExprStmt(Var(q)), []);
    FirstReads(ExprStmt(Var(s)), [ExprStmt(Var(q))] + []);
    FirstReads(LetRef(q, true, Lend(x, true)), [ExprStmt(Var(s))] + ([ExprStmt(Var(q))] + []));
  }

  lemma CopyingReads(x: string, r: string, s: string, q: string)
    ensures ReadsBlock(Block(Copying(x, r, s, q), None)) == [x, r, x, s, q]
  {
    LendingReads(x, s, q);
    StmtReads(x, r, true);
    StmtReads(r, s, true);
    ValueReads(x, false, true);
    FirstReads(LetRef(s, true, Var(r)), Lending(x, s, q));
    FirstReads(LetRef(r, true, Lend(x, true)), [LetRef(s, true, Var(r))] + Lending(x, s, q));
    FirstReads(LetValue(x, false, true), [LetRef(r, true, Lend(x, true))] + ([LetRef(s, true, Var(r))] + Lending(x, s, q)));
  }

  /** A borrow of `x` while `s` still holds one. */
  lemma {:induction false} LendingRuns(x: string, s: string, q: string, ps: PathState)
    requires x != q && x in InScope(ps.frames) && Has(ps, x, F.Mut, s) && Later(ps.lastUse, s, ps.point)
    ensures RunStmts(Lending(x, s, q), ps).clash
  {
    HasClashes(ps, x, F.Mut, s, F.Mut);
    var ps1 := LendRuns(x, q, true, ps);
    TwoReadsRun(s, q, ps1);
    FirstRun(LetRef(q, true, Lend(x, true)), [ExprStmt(Var(s))] + ([ExprStmt(Var(q))] + []), ps);
  }

  /** No record of `x` is left when `q` borrows it. */
  lemma {:induction false} LendingWalks(x: string, s: string, q: string, cx: F.Cx)
    requires x != q && s != q && Fine(cx) && Mutable(cx, x) && Unlent(cx.ledger, x) && forall l :: l in cx.ledger ==> l.borrower.None?
    requires q in cx.lastUse && cx.lastUse[q] <= cx.point + 2
    ensures var r := F.WalkStmts(Lending(x, s, q), cx); r.diag == [] && r.ledger == cx.ledger
  {
    var cx1 := LendWalks(x, q, true, cx);
    TwoReadsWalk(s, q, F.Loan(Place(x, []), F.Mut, Some(q)), cx.ledger, cx1);
    FirstWalk(LetRef(q, true, Lend(x, true)), [ExprStmt(Var(s))] + ([ExprStmt(Var(q))] + []), cx);
  }

  /** `let mut x = ..; let r = &mut x; let s = r; let q = &mut x; s; q`: nothing is
      reported, while `s` and `q` are two live mutable references to `x`. */
  lemma {:induction false} CopyBody(x: string, r: string, s: string, q: string, choices: seq<nat>)
    requires x != r && x != s && x != q && r != s && r != q && s != q
    ensures
      var b := Block(Copying(x, r, s, q), None);
      Checked([], b).diag == [] && PathThrough([], b, choices).clash
  {
    var ss, b := Copying(x, r, s, q), Block(Copying(x, r, s, q), None);
    var cx, ps := Opens(ss, choices);
    CopyingReads(x, r, s, q);
    LastReads(b, 1);
    LastReads(b, 3);
    LastReads(b, 4);
    var cx1, ps1 := ValueStarts(x, cx, ps);
    var rest := [LetRef(r, true, Lend(x, true))] + ([LetRef(s, true, Var(r))] + Lending(x, s, q));
    CopyWalked(x, r, s, q, cx1);
    CopyRun(x, r, s, q, ps1);
    FirstStmt(LetValue(x, false, true), rest, cx, ps);
    BodyEnds(ss, choices, cx, ps);
  }

  lemma {:induction false} CopyWalked(x: string, r: string, s: string, q: string, cx: F.Cx)
    requires x != r && x != s && x != q && r != s && s != q && Fine(cx) && Mutable(cx, x) && cx.ledger == [] && cx.point == 0
    requires r in cx.lastUse && cx.lastUse[r] == 1 && q in cx.lastUse && cx.lastUse[q] == 4
    ensures var out := F.WalkStmts([LetRef(r, true, Lend(x, true))] + ([LetRef(s, true, Var(r))] + Lending(x, s, q)), cx);
            out.diag == [] && out.ledger == []
  {
    var cx1 := LendWalks(x, r, true, cx);
    DropLast([], F.Loan(Place(x, []), F.Mut, Some(r)), r);
    var cx2 := CopyWalks(r, s, cx1);
    LendingWalks(x, s, q, cx2);
    FirstWalk(LetRef(r, true, Lend(x, true)), [LetRef(s, true, Var(r))] + Lending(x, s, q), cx);
    FirstWalk(LetRef(s, true, Var(r)), Lending(x, s, q), cx1);
  }

  lemma {:induction false} CopyRun(x: string, r: string, s: string, q: string, ps: PathState)
    requires x != r && x != s && x != q && x in InScope(ps.frames) && ps.point == 0 && s in ps.lastUse && ps.lastUse[s] == 3
    ensures RunStmts([LetRef(r, true, Lend(x, true))] + ([LetRef(s, true, Var(r))] + Lending(x, s, q)), ps).clash
  {
    var ps1 := LendRuns(x, r, true, ps);
    DeclareLookup(ps.frames, r, Slot(Ready, false, true, true), x);
    var ps2 := CopyRuns(x, r, s, F.Mut, ps1);
    DeclareLookup(ps1.frames, s, Slot(Ready, false, true, true), x);
    LendingRuns(x, s, q, ps2);
    FirstRun(LetRef(r, true, Lend(x, true)), [LetRef(s, true, Var(r))] + Lending(x, s, q), ps);
    FirstRun(LetRef(s, true, Var(r)), Lending(x, s, q), ps1);
  }

  // ----- a refused borrow -----

  function Refusing(x: string, p: string, q: string): seq<Stmt> {
    [LetValue(x, false, true)] + ([ExprStmt(Move(Var(x)))] + RefusedRest(x, p, q))
  }

  function RefusedRest(x: string, p: string, q: string): seq<Stmt> { [LetRef(p, true, Lend(x, true))] + Lending(x, p, q) }

  lemma RefusingReads(x: string, p: string, q: string)
    ensures ReadsBlock(Block(Refusing(x, p, q), None)) == [x, x, x, p, q]
  {
    LendingReads(x, p, q);
    StmtReads(x, p, true);
    ValueReads(x, false, true);
    FirstReads(LetRef(p, true, Lend(x, true)), Lending(x, p, q));
    FirstReads(ExprStmt(Move(Var(x))), RefusedRest(x, p, q));
    FirstReads(LetValue(x, false, true), [ExprStmt(Move(Var(x)))] + RefusedRest(x, p, q));
  }

  /** `let mut x = ..; move x; let p = &mut x; let q = &mut x; p; q`: both borrows are
      refused, so neither is recorded and no conflict is reported. */
  lemma {:induction false} RefusedBorrowHidesConflict(x: string, p: string, q: string, choices: seq<nat>)
    requires x != p && x != q && p != q
    ensures
      var b := Block(Refusing(x, p, q), None);
      Checked([], b).diag == [F.BorrowAfterMove(x), F.BorrowAfterMove(x)] && PathThrough([], b, choices).clash
  {
    var ss, b := Refusing(x, p, q), Block(Refusing(x, p, q), None);
    var cx, ps := Opens(ss, choices);
    RefusingReads(x, p, q);
    LastReads(b, 3);
    var cx1, ps1 := ValueStarts(x, cx, ps);
    MoveStep(x, cx1, ps1);
    SetLookup(ps1.frames, x, MovedOut, x);
    var cx2, ps2 := F.WalkStmt(ExprStmt(Move(Var(x))), cx1), RunStmt(ExprStmt(Move(Var(x))), ps1);
    FirstStmt(LetValue(x, false, true), [ExprStmt(Move(Var(x)))] + RefusedRest(x, p, q), cx, ps);
    FirstStmt(ExprStmt(Move(Var(x))), RefusedRest(x, p, q), cx1, ps1);
    RefusedWalked(x, p, q, cx2);
    RefusedRun(x, p, q, ps2);
    BodyEnds(ss, choices, cx, ps);
  }

  /** `let y = &mut x;` of a moved local. */
  lemma {:induction false} RefusedWalks(x: string, y: string, cx: F.Cx) returns (r: F.Cx)
    requires x != y && x in cx.locals && cx.locals[x].state.Moved? && cx.locals[x].mutable && cx.ledger == []
    ensures r == F.WalkStmt(LetRef(y, true, Lend(x, true)), cx)
    ensures r.diag == cx.diag + [F.BorrowAfterMove(x)] && r.ledger == []
    ensures r.locals == cx.locals[y := F.Local(F.Owned, false, false, true)]
  {
    var cx0 := cx.(pending := Some(y));
    LetRefWalks(y, true, Lend(x, true), cx);
    LentWalk(x, true, cx0);
    NothingHeld(x, F.Advance(F.TryBorrow(cx0, Place(x, []), F.Mut)));
    r := F.WalkStmt(LetRef(y, true, Lend(x, true)), cx);
  }

  lemma QuietRead(y: string, cx: F.Cx)
    requires cx.ledger == [] && y in cx.locals && cx.locals[y].state.Owned?
    ensures F.WalkStmt(ExprStmt(Var(y)), cx) == cx.(point := cx.point + 1)
  {
    assert F.Walk(Var(y), F.Use, cx) == F.WalkPath(cx, [y], F.Use);
    TouchEvent(y, F.Use, cx);
  }

  lemma {:induction false} RefusedWalked(x: string, p: string, q: string, cx: F.Cx)
    requires x != p && x != q && p != q && cx.diag == [] && cx.ledger == []
    requires x in cx.locals && cx.locals[x].state.Moved? && cx.locals[x].mutable
    ensures var out := F.WalkStmts(RefusedRest(x, p, q), cx);
            out.diag == [F.BorrowAfterMove(x), F.BorrowAfterMove(x)] && out.ledger == []
  {
    var cx1 := RefusedWalks(x, p, cx);
    var cx2 := RefusedWalks(x, q, cx1);
    QuietRead(p, cx2);
    var cx3 := F.WalkStmt(ExprStmt(Var(p)), cx2);
    QuietRead(q, cx3);
    FirstWalk(LetRef(p, true, Lend(x, true)), Lending(x, p, q), cx);
    FirstWalk(LetRef(q, true, Lend(x, true)), [ExprStmt(Var(p))] + ([ExprStmt(Var(q))] + []), cx1);
    FirstWalk(ExprStmt(Var(p)), [ExprStmt(Var(q))] + [], cx2);
    FirstWalk(ExprStmt(Var(q)), [], cx3);
    assert F.WalkStmts([], F.WalkStmt(ExprStmt(Var(q)), cx3)) == F.WalkStmt(ExprStmt(Var(q)), cx3);
  }

  lemma {:induction false} RefusedRun(x: string, p: string, q: string, ps: PathState)
    requires x != p && x != q && p != q && x in InScope(ps.frames) && ps.point == 1 && p in ps.lastUse && ps.lastUse[p] == 3
    ensures RunStmts(RefusedRest(x, p, q), ps).clash
  {
    var ps1 := LendRuns(x, p, true, ps);
    DeclareLookup(ps.frames, p, Slot(Ready, false, true, true), x);
    LendingRuns(x, p, q, ps1);
    FirstRun(LetRef(p, true, Lend(x, true)), Lending(x, p, q), ps);
  }

  // ----- a field behind a reference -----

  /** `p.f` and `(*p).f` */
  function PartOf(p: string, f: string, deref: bool): Expr { Field(if deref then Unary(true, false, Var(p)) else Var(p), f) }

  function PartPlace(p: string, f: string, deref: bool): Place { Place(p, if deref then [DerefOf, FieldOf(f)] else [FieldOf(f)]) }

  function LendPart(p: string, f: string, y: string, deref: bool): Stmt { LetRef(y, true, Borrow(true, PartOf(p, f, deref))) }

  /** A `let mut` of a reference. */
  function LetPointer(p: string): Stmt { Let(Named(p, RefTy(true, PlainTy(false)), Real(false, true, true)), Some(Literal), true) }

  function Parting(p: string, f: string, a: string, b: string, first: bool): seq<Stmt> { [LetPointer(p)] + PartingRest(p, f, a, b, first) }

  /** `let a = &mut p.f; let b = &mut (*p).f; a; b`, in either order. */
  function PartingRest(p: string, f: string, a: string, b: string, first: bool): seq<Stmt> {
    [LendPart(p, f, a, first)] + ([LendPart(p, f, b, !first)] + ([ExprStmt(Var(a))] + ([ExprStmt(Var(b))] + [])))
  }

  lemma PartReads(p: string, f: string, y: string, deref: bool)
    ensures Reads(PartOf(p, f, deref)) == [p] && ReadsStmt(LendPart(p, f, y, deref)) == [p] && ReadsStmt(LetPointer(p)) == []
  {
    assert Reads(Var(p)) == [p] && Reads(Unary(true, false, Var(p))) == Reads(Var(p));
    assert Reads(Borrow(true, PartOf(p, f, deref))) == Reads(PartOf(p, f, deref));
  }

  lemma PartingLast(p: string, f: string, a: string, b: string, first: bool)
    requires p != a && p != b && a != b
    ensures var last := LastUses(Block(Parting(p, f, a, b, first), None)); a in last && last[a] == 2 && b in last && last[b] == 3
  {
    PartReads(p, f, a, first);
    PartReads(p, f, b, !first);
    StmtReads(a, a, true);
    StmtReads(b, b, true);
    FirstReads(ExprStmt(Var(b)), []);
    FirstReads(ExprStmt(Var(a)), [ExprStmt(Var(b))] + []);
    FirstReads(LendPart(p, f, b, !first), [ExprStmt(Var(a))] + ([ExprStmt(Var(b))] + []));
    FirstReads(LendPart(p, f, a, first), [LendPart(p, f, b, !first)] + ([ExprStmt(Var(a))] + ([ExprStmt(Var(b))] + [])));
    FirstReads(LetPointer(p), PartingRest(p, f, a, b, first));
    LastReads(Block(Parting(p, f, a, b, first), None), 2);
    LastReads(Block(Parting(p, f, a, b, first), None), 3);
  }

  lemma PartIsPlace(p: string, f: string, deref: bool, bound: set<string>)
    requires p in bound
    ensures F.FullPlace(PartOf(p, f, deref), bound) == Some(PartPlace(p, f, deref))
    ensures F.PlaceOf(PartOf(p, f, deref), bound) == Some(Truncate(PartPlace(p, f, deref)))
  {
    RootPlace(p, bound);
    assert [] + [DerefOf] == [DerefOf] && [DerefOf] + [FieldOf(f)] == [DerefOf, FieldOf(f)] && [] + [FieldOf(f)] == [FieldOf(f)];
    assert deref ==> F.FullPlace(Unary(true, false, Var(p)), bound) == Some(Place(p, [DerefOf]));
    F.PlaceIsTruncated(PartOf(p, f, deref), bound);
  }

  lemma PartsMeet(p: string, f: string, deref: bool)
    ensures Meets(PartPlace(p, f, deref), PartPlace(p, f, !deref))
    ensures !Overlaps(Truncate(PartPlace(p, f, deref)), Truncate(PartPlace(p, f, !deref)))
  {
    var d := [DerefOf, FieldOf(f)];
    assert d[1..] == [FieldOf(f)] && [FieldOf(f)][1..] == [];
    assert Solid([FieldOf(f)]) == [FieldOf(f)] && Solid(d) == [FieldOf(f)];
  }

  /** `let y = &mut p.f;` on a path. */
  lemma {:induction false} PartRuns(p: string, f: string, y: string, deref: bool, ps: PathState) returns (r: PathState)
    requires p != y && p in InScope(ps.frames)
    ensures r == RunStmt(LendPart(p, f, y, deref), ps) && r.point == ps.point + 1 && r.lastUse == ps.lastUse
    ensures r.frames == Declare(ps.frames, y, Slot(Ready, false, true, true))
    ensures r.clash <==> ps.clash || Clashes(ps, PartPlace(p, f, deref), F.Mut)
    ensures exists l :: l in r.live && l.place == PartPlace(p, f, deref) && l.kind == F.Mut && y in l.holders
  {
    var inner, place := PartOf(p, f, deref), PartPlace(p, f, deref);
    var ps0 := Whole(ps, {y}, |Reads(Borrow(true, inner))|);
    var ps1 := Take(ps0, place, F.Mut);
    PartReads(p, f, y, deref);
    LetRefRuns(y, true, Borrow(true, inner), ps);
    PartRun(p, f, deref, ps0);
    r := RunStmt(LendPart(p, f, y, deref), ps);
    assert Clashes(ps0, place, F.Mut) <==> Clashes(ps, place, F.Mut);
    assert r.live == Follow(ps1, p).live;
    NewestKept(place, p, y, ps0);
  }

  /** The borrow just taken, after its local was read. */
  lemma NewestKept(place: Place, p: string, y: string, ps: PathState)
    requires ps.passing == {y} && p != y && place.root == p
    ensures var live := Follow(Take(ps, place, F.Mut), p).live;
            exists l :: l in live && l.place == place && l.kind == F.Mut && y in l.holders
  {
    var ps1 := Take(ps, place, F.Mut);
    var live := Follow(ps1, p).live;
    assert ps1.live[|ps.live|] == Held(place, F.Mut, {y}, ps.limit);
    assert live[|ps.live|] == ps1.live[|ps.live|];
    assert live[|ps.live|] in live;
  }

  lemma PartRun(p: string, f: string, deref: bool, ps: PathState)
    requires p in InScope(ps.frames)
    ensures Run(Borrow(true, PartOf(p, f, deref)), F.Use, ps) == Tick(Follow(Take(ps, PartPlace(p, f, deref), F.Mut), p))
  {
    var e := Borrow(true, PartOf(p, f, deref));
    PartIsPlace(p, f, deref, InScope(ps.frames));
    BorrowSteps(e, F.Cx(map[], [], [], map[], 0, None, []), ps);
    PartSeen(p, f, deref, Take(ps, PartPlace(p, f, deref), F.Mut));
  }

  lemma PartSeen(p: string, f: string, deref: bool, ps: PathState)
    ensures PlaceReads(PartOf(p, f, deref), ps) == Tick(Follow(ps, p))
  {
    assert PlaceReads(Var(p), ps) == Tick(Follow(ps, p));
    assert PlaceReads(Unary(true, false, Var(p)), ps) == PlaceReads(Var(p), ps);
  }

  /** The same through the checker. */
  lemma {:induction false} PartWalks(p: string, f: string, y: string, deref: bool, cx: F.Cx) returns (r: F.Cx)
    requires p != y && Fine(cx) && Mutable(cx, p) && F.Conflict(cx.ledger, Truncate(PartPlace(p, f, deref)), F.Mut) == []
    requires forall l :: l in cx.ledger ==> l.borrower != Some(p)
    ensures r == F.WalkStmt(LendPart(p, f, y, deref), cx) && Fine(r) && Mutable(r, p)
    ensures r.ledger == cx.ledger + [F.Loan(Truncate(PartPlace(p, f, deref)), F.Mut, Some(y))]
    ensures r.point == cx.point + 1 && r.lastUse == cx.lastUse
  {
    var cx0 := cx.(pending := Some(y));
    var cx1 := F.TryBorrow(cx0, Truncate(PartPlace(p, f, deref)), F.Mut);
    LetRefWalks(y, true, Borrow(true, PartOf(p, f, deref)), cx);
    PartWalk(p, f, deref, cx0);
    DecayIsFine(p, F.Advance(cx1));
    NoneHeld(cx1.ledger, p);
    r := F.WalkStmt(LendPart(p, f, y, deref), cx);
  }

  lemma PartWalk(p: string, f: string, deref: bool, cx: F.Cx)
    requires p in cx.locals
    ensures F.Walk(Borrow(true, PartOf(p, f, deref)), F.Use, cx)
         == F.DecayAfterUse(F.Advance(F.TryBorrow(cx, Truncate(PartPlace(p, f, deref)), F.Mut)), p)
  {
    var e, inner, cx1 := Borrow(true, PartOf(p, f, deref)), PartOf(p, f, deref), F.TryBorrow(cx, Truncate(PartPlace(p, f, deref)), F.Mut);
    PartIsPlace(p, f, deref, cx.locals.Keys);
    assert F.PointsOnly(Var(p), cx1) == F.DecayAfterUse(F.Advance(cx1), p);
    assert F.PointsOnly(Unary(true, false, Var(p)), cx1) == F.PointsOnly(Var(p), cx1);
    assert F.WalkBorrow(e, cx) == F.PointsOnly(inner, cx1);
    assert F.Walk(e, F.Use, cx) == F.WalkBorrow(e, cx);
  }

  /** `let mut p = ..; let a = &mut p.f; let b = &mut (*p).f; a; b`, for a reference `p`:
      nothing is reported, while `a` and `b` are two live mutable references to one field. */
  lemma {:induction false} DerefBody(p: string, f: string, a: string, b: string, first: bool, choices: seq<nat>)
    requires p != a && p != b && a != b
    ensures
      var body := Block(Parting(p, f, a, b, first), None);
      Checked([], body).diag == [] && PathThrough([], body, choices).clash
  {
    var ss := Parting(p, f, a, b, first);
    var cx, ps := Opens(ss, choices);
    PartingLast(p, f, a, b, first);
    var cx1, ps1 := PointerStarts(p, cx, ps);
    PartingWalked(p, f, a, b, first, cx1);
    PartingRan(p, f, a, b, first, ps1);
    FirstStmt(LetPointer(p), PartingRest(p, f, a, b, first), cx, ps);
    BodyEnds(ss, choices, cx, ps);
  }

  lemma {:induction false} PointerStarts(p: string, cx: F.Cx, ps: PathState) returns (cx1: F.Cx, ps1: PathState)
    requires Fine(cx) && ps.frames != []
    ensures cx1 == F.WalkStmt(LetPointer(p), cx) && ps1 == RunStmt(LetPointer(p), ps)
    ensures Fine(cx1) && Mutable(cx1, p) && cx1.ledger == cx.ledger && cx1.point == cx.point && cx1.lastUse == cx.lastUse
    ensures ps1 == ps.(frames := ps1.frames) && p in InScope(ps1.frames)
  {
    var ty, actual := RefTy(true, PlainTy(false)), Real(false, true, true);
    NamedBinds(p, ty, actual);
    LetSteps(Named(p, ty, actual), Literal, true, cx, ps);
    BindOne(F.BindingOf(p, ty, actual), true, cx, ps);
    DeclareLookup(ps.frames, p, Slot(Ready, false, true, true), p);
    cx1, ps1 := F.WalkStmt(LetPointer(p), cx), RunStmt(LetPointer(p), ps);
  }

  lemma {:induction false} PartingWalked(p: string, f: string, a: string, b: string, first: bool, cx: F.Cx)
    requires p != a && p != b && a != b && Fine(cx) && Mutable(cx, p) && cx.ledger == [] && cx.point == 0
    requires a in cx.lastUse && cx.lastUse[a] == 2 && b in cx.lastUse && cx.lastUse[b] == 3
    ensures var out := F.WalkStmts(PartingRest(p, f, a, b, first), cx); out.diag == [] && out.ledger == []
  {
    var k, l := F.Loan(Truncate(PartPlace(p, f, first)), F.Mut, Some(a)), F.Loan(Truncate(PartPlace(p, f, !first)), F.Mut, Some(b));
    PartsMeet(p, f, first);
    var cx1 := PartWalks(p, f, a, first, cx);
    var cx2 := PartWalks(p, f, b, !first, cx1);
    BothReadLast(a, b, k, l, cx2);
    FirstWalk(LendPart(p, f, a, first), [LendPart(p, f, b, !first)] + ([ExprStmt(Var(a))] + ([ExprStmt(Var(b))] + [])), cx);
    FirstWalk(LendPart(p, f, b, !first), [ExprStmt(Var(a))] + ([ExprStmt(Var(b))] + []), cx1);
  }

  /** `a; b`, both for the last time. */
  lemma {:induction false} BothReadLast(a: string, b: string, k: F.Loan, l: F.Loan, cx: F.Cx)
    requires a != b && Fine(cx) && cx.ledger == [k] + [l] && k.borrower == Some(a) && l.borrower == Some(b)
    requires a in cx.lastUse && cx.lastUse[a] == cx.point && b in cx.lastUse && cx.lastUse[b] == cx.point + 1
    ensures var out := F.WalkStmts([ExprStmt(Var(a))] + ([ExprStmt(Var(b))] + []), cx); out.diag == [] && out.ledger == []
  {
    var cx1 := ReadWalk(a, cx);
    WithoutFirst(k, [l], a);
    NoneHeld([l], a);
    var cx2 := LastReadWalk(b, l, [], cx1);
    StmtWalks(Var(a), cx);
    StmtWalks(Var(b), cx1);
    FirstWalk(ExprStmt(Var(a)), [ExprStmt(Var(b))] + [], cx);
    FirstWalk(ExprStmt(Var(b)), [], cx1);
    assert F.WalkStmts([], cx2) == cx2;
  }

  lemma {:induction false} PartingRan(p: string, f: string, a: string, b: string, first: bool, ps: PathState)
    requires p != a && p != b && a != b && p in InScope(ps.frames) && ps.point == 0 && a in ps.lastUse && ps.lastUse[a] == 2
    ensures RunStmts(PartingRest(p, f, a, b, first), ps).clash
  {
    var ps1 := PartRuns(p, f, a, first, ps);
    DeclareLookup(ps.frames, a, Slot(Ready, false, true, true), p);
    PartsMeet(p, f, first);
    var l :| l in ps1.live && l.place == PartPlace(p, f, first) && l.kind == F.Mut && a in l.holders;
    assert Alive(l, ps1.lastUse, ps1.point) && Clashes(ps1, PartPlace(p, f, !first), F.Mut);
    var ps2 := PartRuns(p, f, b, !first, ps1);
    TwoReadsRun(a, b, ps2);
    FirstRun(LendPart(p, f, a, first), [LendPart(p, f, b, !first)] + ([ExprStmt(Var(a))] + ([ExprStmt(Var(b))] + [])), ps);
    FirstRun(LendPart(p, f, b, !first), [ExprStmt(Var(a))] + ([ExprStmt(Var(b))] + []), ps1);
  }
}
