/** Moves of borrowed locals: the checker's states, and two families of whole bodies in
    which it forgets that a local is borrowed. */
module FlowMoves {
  import opened Wrappers
  import opened Hir
  import opened Places
  import opened Nll
  import opened FlowState
  import opened FlowPaths
  import opened FlowFit
  import opened FlowSafety
  import opened FlowTheorems
  import opened FlowBodies
  import opened FlowSteps
  import F = Flow

  // ----- the states -----

  /** The state that a join gives, in every case. */
  lemma JoinTable(a: F.Ownership, b: F.Ownership)
    ensures F.JoinState(a, b).Moved? <==> a.Moved? || b.Moved?
    ensures F.JoinState(a, b).Uninit? <==> (a.Uninit? || b.Uninit?) && !a.Moved? && !b.Moved?
    ensures F.JoinState(a, b).BorrowedMut? <==> (a.BorrowedMut? || b.BorrowedMut?) && !(a.Moved? || b.Moved? || a.Uninit? || b.Uninit?)
    ensures F.JoinState(a, b).Borrowed? <==> a.Borrowed? && (b.Owned? || b.Borrowed?)
    ensures F.JoinState(a, b).Owned? <==> a.Owned? && (b.Owned? || b.Borrowed?)
    ensures a.Borrowed? && b.Borrowed? ==> F.JoinState(a, b).count == Max(a.count, b.count)
  {
  }

  /** A move of a usable local is refused exactly when its state is borrowed or a part of
      it is; what is reported says whether the whole of it is. */
  lemma MoveReports(cx: F.Cx, x: string)
    requires x in cx.locals && !cx.locals[x].state.Moved? && !cx.locals[x].state.Uninit?
    ensures
      var r, l := F.DoMove(cx, x), cx.locals[x];
      var whole := exists k :: k in cx.ledger && k.place.root == x && k.place.projs == [];
      var part := exists k :: k in cx.ledger && k.place.root == x && k.place.projs != [];
      && r.diag == cx.diag + (if l.state.Owned? then (if part then [F.MoveOutOfBorrow(x)] else [])
                              else if part && !whole then [F.MoveOutOfBorrow(x)] else [F.CannotMoveBorrowed(x)])
      && r.locals == (if l.state.Owned? && !l.copy then cx.locals[x := l.(state := F.Moved)] else cx.locals)
      && r.ledger == cx.ledger
  {
  }

  /** A borrow of an owned local leaves it borrowed, in the kind of the borrow. */
  lemma BorrowMarks(cx: F.Cx, place: Place, kind: F.BorrowKind)
    requires place.root in cx.locals && cx.locals[place.root].state.Owned?
    ensures
      var s := F.TryBorrow(cx, place, kind).locals[place.root].state;
      if kind == F.Mut then s == F.BorrowedMut else s == F.Borrowed(1)
  {
  }

  // ----- an assignment between the borrow and the move -----

  function Reset(x: string): Expr { Assign(false, false, Var(x), Literal) }

  function Moving(x: string, r: string): seq<Stmt> { [ExprStmt(Move(Var(x)))] + ([ExprStmt(Var(r))] + []) }

  /** `let mut x = ..; let r = &x; x = ..; move x; r`, with or without the assignment. */
  function Resetting(x: string, r: string, reset: bool): seq<Stmt> {
    [LetValue(x, false, true)] + ([LetRef(r, false, Lend(x, false))] + ((if reset then [ExprStmt(Reset(x))] else []) + Moving(x, r)))
  }

  lemma MovingReads(x: string, r: string)
    ensures ReadsStmts(Moving(x, r)) == [x, r]
  {
    StmtReads(x, r, false);
    StmtReads(r, r, false);
    FirstReads(ExprStmt(Var(r)), []);
    FirstReads(ExprStmt(Move(Var(x))), [ExprStmt(Var(r))] + []);
  }

  lemma ResettingReads(x: string, r: string, reset: bool)
    ensures ReadsBlock(Block(Resetting(x, r, reset), None)) == [x] + ((if reset then [x] else []) + [x, r])
  {
    MovingReads(x, r);
    StmtReads(x, r, false);
    ValueReads(x, false, true);
    var rest := (if reset then [ExprStmt(Reset(x))] else []) + Moving(x, r);
    if reset {
      assert Reads(Reset(x)) == [x];
      FirstReads(ExprStmt(Reset(x)), Moving(x, r));
    } else {
      assert rest == Moving(x, r);
    }
    FirstReads(LetRef(r, false, Lend(x, false)), rest);
    FirstReads(LetValue(x, false, true), [LetRef(r, false, Lend(x, false))] + rest);
  }

  /** Only `r` holds a record, of `x`; both are usable. */
  ghost predicate OneLoan(cx: F.Cx, x: string, r: string) {
    && cx.diag == [] && cx.pending.None? && cx.ledger == [F.Loan(Place(x, []), F.Shared, Some(r))]
    && x in cx.locals && r in cx.locals && cx.locals[r].state.Owned? && cx.locals[x].mutable && !cx.locals[x].copy
  }

  /** A read of any name but `r` leaves the record. */
  lemma LoanStays(cx: F.Cx, x: string, r: string)
    requires x != r && cx.ledger == [F.Loan(Place(x, []), F.Shared, Some(r))]
    ensures F.DecayAfterUse(cx, x).ledger == cx.ledger && F.DecayAfterUse(cx, x).locals == cx.locals
    ensures F.DecayAfterUse(cx, x).diag == cx.diag && F.DecayAfterUse(cx, x) == cx
  {
    NoneHeld(cx.ledger, x);
  }

  /** `x = ..;` */
  lemma {:induction false} ResetWalks(x: string, r: string, cx: F.Cx) returns (out: F.Cx)
    requires x != r && OneLoan(cx, x, r)
    ensures out == F.WalkStmt(ExprStmt(Reset(x)), cx) && OneLoan(out, x, r) && out.locals[x].state.Owned?
    ensures out.point == cx.point + 1 && out.lastUse == cx.lastUse
  {
    var cx1 := F.WalkPath(cx, [x], F.Target);
    LoanStays(F.DoAssign(F.Advance(cx), x), x, r);
    StmtWalks(Reset(x), cx);
    ResetUnfolds(x, cx);
    out := F.WalkStmt(ExprStmt(Reset(x)), cx);
  }

  lemma ResetUnfolds(x: string, cx: F.Cx)
    ensures F.Walk(Reset(x), F.Use, cx) == F.WalkPath(cx, [x], F.Target)
  {
    var cx1 := F.Walk(Var(x), F.Target, cx);
    assert cx1 == F.WalkPath(cx, [x], F.Target);
    assert F.Walk(Literal, F.Use, cx1.(pending := Some(x))) == cx1.(pending := Some(x));
    assert F.Walk(Reset(x), F.Use, cx) == F.WalkAssign(Reset(x), cx);
  }

  /** `move x; r` */
  lemma {:induction false} MovingWalks(x: string, r: string, cx: F.Cx)
    requires x != r && OneLoan(cx, x, r) && r in cx.lastUse && cx.lastUse[r] == cx.point + 1
    requires cx.locals[x].state.Owned? || cx.locals[x].state.Borrowed?
    ensures
      var out := F.WalkStmts(Moving(x, r), cx);
      out.diag == (if cx.locals[x].state.Owned? then [] else [F.CannotMoveBorrowed(x)]) && out.ledger == []
  {
    var cx1 := F.WalkStmt(ExprStmt(Move(Var(x))), cx);
    MovedWalks(x, r, cx);
    FirstWalk(ExprStmt(Move(Var(x))), [ExprStmt(Var(r))] + [], cx);
    FirstWalk(ExprStmt(Var(r)), [], cx1);
    LastWalks(x, r, cx1);
  }

  lemma {:induction false} MovedWalks(x: string, r: string, cx: F.Cx)
    requires x != r && OneLoan(cx, x, r) && (cx.locals[x].state.Owned? || cx.locals[x].state.Borrowed?)
    ensures
      var out := F.WalkStmt(ExprStmt(Move(Var(x))), cx);
      && out.diag == (if cx.locals[x].state.Owned? then [] else [F.CannotMoveBorrowed(x)]) && out.ledger == cx.ledger
      && r in out.locals && out.locals[r] == cx.locals[r] && out.point == cx.point + 1 && out.lastUse == cx.lastUse
  {
    MoveSteps(Var(x), cx, Open(Blank([], Block([], None), [])));
    StmtWalks(Move(Var(x)), cx);
    assert F.Walk(Var(x), F.Moving, cx) == F.WalkPath(cx, [x], F.Moving);
    MoveReports(F.Advance(cx), x);
    assert cx.ledger[0] in cx.ledger;
    LoanStays(F.DoMove(F.Advance(cx), x), x, r);
  }

  lemma LastWalks(x: string, r: string, cx: F.Cx)
    requires cx.ledger == [F.Loan(Place(x, []), F.Shared, Some(r))] && r in cx.locals && cx.locals[r].state.Owned?
    requires r in cx.lastUse && cx.lastUse[r] == cx.point
    ensures var out := F.WalkStmt(ExprStmt(Var(r)), cx); out.diag == cx.diag && out.ledger == []
  {
    StmtWalks(Var(r), cx);
    assert F.Walk(Var(r), F.Use, cx) == F.WalkPath(cx, [r], F.Use);
    assert cx.ledger[1..] == [];
    assert F.Without(cx.ledger, {r}) == [];
  }

  /** `let mut x = ..; let r = &x;` */
  lemma {:induction false} LentWalks(x: string, r: string, cx: F.Cx) returns (out: F.Cx)
    requires x != r && Fine(cx) && cx.ledger == [] && Mutable(cx, x) && cx.locals[x] == F.Local(F.Owned, true, false, false)
    ensures out == F.WalkStmt(LetRef(r, false, Lend(x, false)), cx) && OneLoan(out, x, r) && out.locals[x].state == F.Borrowed(1)
    ensures out.point == cx.point + 1 && out.lastUse == cx.lastUse
  {
    var cx0 := cx.(pending := Some(r));
    LetRefWalks(r, false, Lend(x, false), cx);
    LentWalk(x, false, cx0);
    BorrowMarks(cx0, Place(x, []), F.Shared);
    NoConflict(cx.ledger, x, F.Shared);
    var cx1 := F.TryBorrow(cx0, Place(x, []), F.Shared);
    assert cx1.ledger == [F.Loan(Place(x, []), F.Shared, Some(r))];
    LoanStays(F.Advance(cx1), x, r);
    out := F.WalkStmt(LetRef(r, false, Lend(x, false)), cx);
  }

  lemma {:induction false} ResettingWalks(x: string, r: string, reset: bool, cx: F.Cx)
    requires x != r && Fine(cx) && cx.ledger == [] && cx.scopes != [] && cx.point == 0
    requires r in cx.lastUse && cx.lastUse[r] == if reset then 3 else 2
    ensures var out := F.WalkStmts(Resetting(x, r, reset), cx);
            out.diag == (if reset then [] else [F.CannotMoveBorrowed(x)]) && out.ledger == []
  {
    var rest := (if reset then [ExprStmt(Reset(x))] else []) + Moving(x, r);
    LetValueStep(x, false, true, cx, Open(Blank([], Block([], None), [])));
    var cx1 := F.WalkStmt(LetValue(x, false, true), cx);
    var cx2 := LentWalks(x, r, cx1);
    FirstWalk(LetValue(x, false, true), [LetRef(r, false, Lend(x, false))] + rest, cx);
    FirstWalk(LetRef(r, false, Lend(x, false)), rest, cx1);
    if reset {
      var cx3 := ResetWalks(x, r, cx2);
      FirstWalk(ExprStmt(Reset(x)), Moving(x, r), cx2);
      MovingWalks(x, r, cx3);
    } else {
      assert rest == Moving(x, r);
      MovingWalks(x, r, cx2);
    }
  }

  // ----- along the path -----

  /** `r` holds a borrow of `x`, which has its value. */
  ghost predicate LentOut(ps: PathState, x: string, r: string) {
    && ps.frames != [] && Has(ps, x, F.Shared, r)
    && Lookup(ps.frames, x).Some? && Lookup(ps.frames, x).value.status == Ready && !Lookup(ps.frames, x).value.copy
  }

  lemma HasPledged(ps: PathState, x: string, r: string)
    requires Has(ps, x, F.Shared, r) && Later(ps.lastUse, r, ps.point)
    ensures Pledged(ps, x)
  {
    var l :| l in ps.live && l.place == Place(x, []) && l.kind == F.Shared && r in l.holders;
    assert Alive(l, ps.lastUse, ps.point);
  }

  lemma {:induction false} MovingRuns(x: string, r: string, ps: PathState)
    requires LentOut(ps, x, r) && Later(ps.lastUse, r, ps.point + 1)
    ensures RunStmts(Moving(x, r), ps).torn
  {
    var s, ps0 := ExprStmt(Move(Var(x))), Whole(ps, {}, |Reads(Move(Var(x)))|);
    var cx := F.Cx(map[], [], [], map[], 0, None, []);
    ExprSteps(Move(Var(x)), cx, ps);
    ForSteps(Move(Var(x)), {}, ps);
    MoveSteps(Var(x), cx, ps0);
    PathSteps(Var(x), F.Moving, cx, ps0);
    MovedRuns(x, r, ps0);
    var ps1 := RunStmt(s, ps);
    FirstRun(s, [ExprStmt(Var(r))] + [], ps);
    FirstRun(ExprStmt(Var(r)), [], ps1);
    ReadTorn(r, ps1);
    assert RunStmts([], RunStmt(ExprStmt(Var(r)), ps1)) == RunStmt(ExprStmt(Var(r)), ps1);
  }

  lemma MovedRuns(x: string, r: string, ps: PathState)
    requires LentOut(ps, x, r) && Later(ps.lastUse, r, ps.point + 1)
    ensures OnPath(ps, [x], F.Moving).torn
  {
    FollowGrows(ps, x);
    StillHas(ps, Follow(ps, x), x, F.Shared, r);
    HasPledged(Follow(ps, x), x, r);
  }

  lemma ReadTorn(y: string, ps: PathState)
    ensures RunStmt(ExprStmt(Var(y)), ps).torn == ps.torn
  {
    var ps0, cx := Whole(ps, {}, |Reads(Var(y))|), F.Cx(map[], [], [], map[], 0, None, []);
    ExprSteps(Var(y), cx, ps);
    ForSteps(Var(y), {}, ps);
    PathSteps(Var(y), F.Use, cx, ps0);
  }

  /** `x = ..;` */
  lemma {:induction false} ResetRuns(x: string, r: string, ps: PathState) returns (out: PathState)
    requires LentOut(ps, x, r)
    ensures out == RunStmt(ExprStmt(Reset(x)), ps) && LentOut(out, x, r) && out.point == ps.point + 1 && out.lastUse == ps.lastUse
  {
    var e, cx := Reset(x), F.Cx(map[], [], [], map[], 0, None, []);
    var ps0 := Whole(ps, {}, |Reads(e)|);
    ExprSteps(e, cx, ps);
    ForSteps(e, {}, ps);
    PartsRun(e, F.Use, ps0);
    ResetRun(x, ps0);
    SetLookup(ps.frames, x, Ready, x);
    out := RunStmt(ExprStmt(e), ps);
    StillLent(ps, out, x, r);
  }

  lemma StillLent(ps: PathState, out: PathState, x: string, r: string)
    requires Has(ps, x, F.Shared, r) && out.live == ps.live
    ensures Has(out, x, F.Shared, r)
  {
  }

  lemma ResetRun(x: string, ps: PathState)
    requires Lookup(ps.frames, x).Some?
    ensures RunParts(Reset(x), ps) == Tick(ps.(frames := SetStatus(ps.frames, x, Ready)))
  {
    var e := Reset(x);
    var ps1 := Tick(ps.(frames := SetStatus(ps.frames, x, Ready)));
    TargetRun(x, ps);
    LiteralRun(TowardTarget(ps1, e));
    assert RunParts(e, ps) == RunAssign(e, ps);
  }

  lemma TargetRun(x: string, ps: PathState)
    requires Lookup(ps.frames, x).Some?
    ensures Back(Run(Var(x), F.Target, Toward(ps, {}, ps.limit)), ps) == Tick(ps.(frames := SetStatus(ps.frames, x, Ready)))
  {
    PathSteps(Var(x), F.Target, F.Cx(map[], [], [], map[], 0, None, []), Toward(ps, {}, ps.limit));
  }

  lemma LiteralRun(ps: PathState)
    ensures Run(Literal, F.Use, ps) == ps
  {
  }

  lemma {:induction false} ResettingRuns(x: string, r: string, reset: bool, ps: PathState)
    requires x != r && ps.frames != [] && ps.point == 0 && Later(ps.lastUse, r, if reset then 3 else 2)
    ensures RunStmts(Resetting(x, r, reset), ps).torn
  {
    var rest := (if reset then [ExprStmt(Reset(x))] else []) + Moving(x, r);
    var cx := F.Cx(map[], [], [], map[], 0, None, []);
    LetValueStep(x, false, true, cx, ps);
    var ps1 := RunStmt(LetValue(x, false, true), ps);
    DeclareLookup(ps.frames, x, Slot(Ready, false, false, false), x);
    var ps2 := LendRuns(x, r, false, ps1);
    DeclareLookup(ps1.frames, r, Slot(Ready, true, true, true), x);
    FirstRun(LetValue(x, false, true), [LetRef(r, false, Lend(x, false))] + rest, ps);
    FirstRun(LetRef(r, false, Lend(x, false)), rest, ps1);
    if reset {
      var ps3 := ResetRuns(x, r, ps2);
      FirstRun(ExprStmt(Reset(x)), Moving(x, r), ps2);
      MovingRuns(x, r, ps3);
    } else {
      assert rest == Moving(x, r);
      MovingRuns(x, r, ps2);
    }
  }

  /** On the path `x` is moved while `r` still refers to it. It is reported, unless `x`
      was assigned in between: an assigned local counts as owned. */
  lemma {:induction false} ResetBody(x: string, r: string, reset: bool, choices: seq<nat>)
    requires x != r
    ensures
      var b := Block(Resetting(x, r, reset), None);
      && PathThrough([], b, choices).torn
      && Checked([], b).diag == (if reset then [] else [F.CannotMoveBorrowed(x)])
  {
    var ss, b, n := Resetting(x, r, reset), Block(Resetting(x, r, reset), None), if reset then 3 else 2;
    var cx, ps := Opens(ss, choices);
    ResettingReads(x, r, reset);
    assert ReadsBlock(b)[n] == r && ReadsBlock(b)[n + 1..] == [];
    LastReads(b, n);
    ResettingWalks(x, r, reset, cx);
    ResettingRuns(x, r, reset, ps);
    BodyEnds(ss, choices, cx, ps);
  }

  // ----- a branch between the borrow and the move -----

  function Either(x: string, last: bool): Expr {
    if last then If(Literal, Block([], Some(Literal)), Some(Lend(x, false)))
    else If(Literal, Block([], Some(Lend(x, false))), Some(Literal))
  }

  /** `let mut x = ..; let r = if .. { .. } else { .. }; move x; r`, with `&x` in the
      last branch or in the first. */
  function Branching(x: string, r: string, last: bool): seq<Stmt> {
    [LetValue(x, false, true)] + ([LetRef(r, false, Either(x, last))] + Moving(x, r))
  }

  lemma EitherReads(x: string, last: bool)
    ensures Reads(Either(x, last)) == [x] && Reads(Literal) == []
    ensures ReadsBlock(Block([], Some(Literal))) == [] && ReadsBlock(Block([], Some(Lend(x, false)))) == [x]
  {
    assert Reads(Lend(x, false)) == Reads(Var(x)) == [x] && ReadsStmts([]) == [];
    assert ReadsBlock(Block([], Some(Literal))) == [] && ReadsBlock(Block([], Some(Lend(x, false)))) == [x];
  }

  lemma BranchingReads(x: string, r: string, last: bool)
    ensures ReadsBlock(Block(Branching(x, r, last), None)) == [x, x, r]
  {
    MovingReads(x, r);
    ValueReads(x, false, true);
    EitherReads(x, last);
    FirstReads(LetRef(r, false, Either(x, last)), Moving(x, r));
    FirstReads(LetValue(x, false, true), [LetRef(r, false, Either(x, last))] + Moving(x, r));
    assert ReadsStmt(LetRef(r, false, Either(x, last))) == [x];
  }

  // ----- its walk -----

  lemma PlainBlockWalks(e: Expr, cx: F.Cx)
    ensures F.WalkBlock(Block([], Some(e)), cx) == F.Pop(F.Walk(e, F.Use, F.Push(cx)))
  {
  }

  lemma {:induction false} NoneWithout(ledger: F.Ledger)
    ensures F.Without(ledger, {}) == ledger && F.Held(ledger, {}) == [] && F.NotRootedIn(ledger, {}) == ledger
    ensures F.OutlivesDiags(ledger, {}) == []
    decreases |ledger|
  {
    if ledger != [] { NoneWithout(ledger[1..]); }
  }

  /** The end of a scope without names changes nothing but the scopes. */
  lemma PopsEmpty(cx: F.Cx)
    requires cx.scopes != [] && cx.scopes[|cx.scopes| - 1] == []
    ensures F.Pop(cx) == cx.(scopes := cx.scopes[..|cx.scopes| - 1])
  {
    NoneWithout(cx.ledger);
    assert F.NameSet([]) == {} && cx.locals - {} == cx.locals && cx.diag + [] == cx.diag;
  }

  /** A local just borrowed, with nothing recorded before. */
  function Lent1(cx: F.Cx, x: string): F.Cx
    requires x in cx.locals
  {
    cx.(point := cx.point + 1, ledger := [F.Loan(Place(x, []), F.Shared, cx.pending)],
        locals := cx.locals[x := cx.locals[x].(state := F.Borrowed(1))])
  }

  lemma LendWalks1(x: string, r: string, cx: F.Cx)
    requires x != r && cx.pending == Some(r) && cx.ledger == [] && x in cx.locals && cx.locals[x].state.Owned?
    ensures F.Walk(Lend(x, false), F.Use, cx) == Lent1(cx, x)
  {
    LentWalk(x, false, cx);
    NoConflict(cx.ledger, x, F.Shared);
    var cx1 := F.TryBorrow(cx, Place(x, []), F.Shared);
    assert cx1.ledger == [F.Loan(Place(x, []), F.Shared, Some(r))] && cx1.diag == cx.diag;
    LoanStays(F.Advance(cx1), x, r);
  }

  lemma LiteralWalks(cx: F.Cx)
    ensures F.Walk(Literal, F.Use, cx) == cx
  {
  }

  lemma BlockedWalks(e: Expr, cx: F.Cx, out: F.Cx)
    requires F.Walk(e, F.Use, F.Push(cx)) == out.(scopes := F.Push(cx).scopes) && out.scopes == cx.scopes
    ensures F.WalkBlock(Block([], Some(e)), cx) == out
  {
    PlainBlockWalks(e, cx);
    PopsEmpty(out.(scopes := F.Push(cx).scopes));
    assert F.Push(cx).scopes[..|cx.scopes|] == cx.scopes;
  }

  lemma EitherUnfolds(x: string, last: bool, cx: F.Cx)
    ensures
      var e := Either(x, last);
      var cx1 := F.WalkBlock(e.thn, cx);
      F.Walk(e, F.Use, cx) == F.JoinInto(F.Walk(e.els.value, F.Use, F.Restart(cx1, cx)), cx1)
  {
    var e := Either(x, last);
    LiteralWalks(cx);
    assert F.Walk(e, F.Use, cx) == F.WalkIf(e, cx);
    assert e.cond == Literal && F.WalkIf(e, cx) == F.WalkBranches(e, cx);
  }

  /** The record is there, and the state is that of the last branch. */
  ghost predicate Joined(cx: F.Cx, out: F.Cx, x: string, r: string, last: bool)
    requires x in cx.locals
  {
    && out.ledger == [F.Loan(Place(x, []), F.Shared, Some(r))]
    && out.locals == cx.locals[x := cx.locals[x].(state := if last then F.Borrowed(1) else F.Owned)]
    && out.diag == cx.diag && out.point == cx.point + 1 && out.lastUse == cx.lastUse && out.scopes == cx.scopes && out.pending == cx.pending
  }

  lemma LastJoined(x: string, r: string, cx: F.Cx)
    requires x != r && cx.pending == Some(r) && cx.ledger == [] && x in cx.locals && cx.locals[x].state.Owned?
    ensures Joined(cx, F.Walk(Either(x, true), F.Use, cx), x, r, true)
  {
    EitherUnfolds(x, true, cx);
    LiteralWalks(F.Push(cx));
    BlockedWalks(Literal, cx, cx);
    assert F.Restart(cx, cx) == cx;
    LendWalks1(x, r, cx);
    JoinsUp(cx, Lent1(cx, x), cx, x, r, true);
  }

  lemma FirstJoined(x: string, r: string, cx: F.Cx)
    requires x != r && cx.pending == Some(r) && cx.ledger == [] && x in cx.locals && cx.locals[x].state.Owned?
    ensures Joined(cx, F.Walk(Either(x, false), F.Use, cx), x, r, false)
  {
    var cx1 := Lent1(cx, x);
    EitherUnfolds(x, false, cx);
    LendWalks1(x, r, F.Push(cx));
    assert Lent1(F.Push(cx), x) == cx1.(scopes := F.Push(cx).scopes);
    BlockedWalks(Lend(x, false), cx, cx1);
    LiteralWalks(F.Restart(cx1, cx));
    JoinsUp(cx, F.Restart(cx1, cx), cx1, x, r, false);
  }

  /** The branch with the borrow on the left of the join, or on the right. */
  lemma JoinsUp(cx: F.Cx, a: F.Cx, b: F.Cx, x: string, r: string, last: bool)
    requires cx.pending == Some(r) && cx.ledger == [] && x in cx.locals && cx.locals[x].state.Owned?
    requires if last then a == Lent1(cx, x) && b == cx else a == F.Restart(Lent1(cx, x), cx) && b == Lent1(cx, x)
    ensures Joined(cx, F.JoinInto(a, b), x, r, last)
  {
    var l := F.Loan(Place(x, []), F.Shared, Some(r));
    assert cx.locals == cx.locals[x := cx.locals[x].(state := F.Owned)];
    JoinedStates(cx.locals, x, F.Borrowed(1), F.Owned);
    JoinedStates(cx.locals, x, F.Owned, F.Borrowed(1));
    OneJoined([], l, last);
  }

  lemma JoinedStates(locals: F.Locals, x: string, a: F.Ownership, b: F.Ownership)
    requires x in locals && locals[x].state == F.Owned && F.JoinState(F.Owned, F.Owned) == F.Owned
    ensures F.JoinLocals(locals[x := locals[x].(state := a)], locals[x := locals[x].(state := b)])
         == locals[x := locals[x].(state := F.JoinState(a, b))]
  {
    var j := F.JoinLocals(locals[x := locals[x].(state := a)], locals[x := locals[x].(state := b)]);
    forall y | y in locals ensures y in j && j[y] == locals[x := locals[x].(state := F.JoinState(a, b))][y] {
      JoinSame(locals[y].state);
    }
  }

  lemma JoinSame(a: F.Ownership)
    ensures F.JoinState(a, a) == a
  {
  }

  lemma OneJoined(none: F.Ledger, l: F.Loan, left: bool)
    requires none == []
    ensures if left then F.JoinLedgers([l], none) == [l] else F.JoinLedgers(none, [l]) == [l]
  {
    assert [l][1..] == [] && F.AddNew([], [l]) == F.AddNew([l], []) == [l];
  }

  lemma {:induction false} BranchingWalks(x: string, r: string, last: bool, cx: F.Cx)
    requires x != r && Fine(cx) && cx.ledger == [] && cx.scopes != [] && cx.point == 0 && r in cx.lastUse && cx.lastUse[r] == 2
    ensures var out := F.WalkStmts(Branching(x, r, last), cx);
            out.diag == (if last then [F.CannotMoveBorrowed(x)] else []) && out.ledger == []
  {
    LetValueStep(x, false, true, cx, Open(Blank([], Block([], None), [])));
    var cx1 := F.WalkStmt(LetValue(x, false, true), cx);
    var cx0 := cx1.(pending := Some(r));
    if last { LastJoined(x, r, cx0); } else { FirstJoined(x, r, cx0); }
    LetRefWalks(r, false, Either(x, last), cx1);
    var cx2 := F.WalkStmt(LetRef(r, false, Either(x, last)), cx1);
    FirstWalk(LetValue(x, false, true), [LetRef(r, false, Either(x, last))] + Moving(x, r), cx);
    FirstWalk(LetRef(r, false, Either(x, last)), Moving(x, r), cx1);
    MovingWalks(x, r, cx2);
  }

  // ----- its paths -----

  /** Does the path go through the branch that borrows? */
  predicate Through(choices: seq<nat>, last: bool) { last <==> choices != [] && choices[0] != 0 }

  lemma EitherRuns(x: string, last: bool, ps: PathState)
    ensures
      var e, c := Either(x, last), Chosen(ps);
      Run(e, F.Use, ps) == if Choice(ps) == 0 then Skip(RunBlock(e.thn, c), |Reads(e.els.value)|)
                           else Run(e.els.value, F.Use, Skip(c, |ReadsBlock(e.thn)|))
  {
    var e := Either(x, last);
    PartsRun(e, F.Use, ps);
    NoCondition(ps);
    assert e.cond == Literal && RunParts(e, ps) == RunIf(e, ps);
    assert RunIf(e, ps) == RunBranch(e, Choice(ps), Chosen(ps));
  }

  lemma NoCondition(ps: PathState)
    ensures RunFor(Literal, {}, ps) == ps
  {
    ForSteps(Literal, {}, ps);
    LiteralRun(Whole(ps, {}, |Reads(Literal)|));
  }

  /** A block of one expression, in a scope without names. */
  lemma PlainBlockRuns(e: Expr, ps: PathState)
    ensures RunBlock(Block([], Some(e)), ps) == Close(Run(e, F.Use, Open(ps)))
  {
    assert RunStmts([], Open(ps)) == Open(ps);
  }

  lemma {:induction false} SurvivorsSame(live: seq<Held>)
    ensures Survivors(live, {}) == live
    decreases |live|
  {
    if live != [] {
      assert live[0].holders - {} == live[0].holders;
      SurvivorsSame(live[1..]);
    }
  }

  /** What a branch comes to: a borrow of `x` for `r`, or nothing. */
  ghost predicate Branched(ps: PathState, out: PathState, x: string, r: string, lent: bool) {
    && out.frames == ps.frames && out.point == ps.point + 1 && out.lastUse == ps.lastUse && out.torn == ps.torn
    && if lent then Has(out, x, F.Shared, r) else Calm(out)
  }

  lemma {:induction false} ThenRuns(x: string, r: string, last: bool, ps: PathState)
    requires x != r && Calm(ps) && x in InScope(ps.frames) && r in ps.passing
    ensures var e := Either(x, last); Branched(ps, Skip(RunBlock(e.thn, ps), |Reads(e.els.value)|), x, r, !last)
  {
    EitherReads(x, last);
    if last { NothingRuns(x, r, ps); } else { BlockLends(x, r, ps); }
  }

  lemma {:induction false} NothingRuns(x: string, r: string, ps: PathState)
    requires Calm(ps)
    ensures Branched(ps, Skip(RunBlock(Block([], Some(Literal)), ps), 1), x, r, false)
    ensures Reads(Lend(x, false)) == [x]
  {
    EitherReads(x, true);
    PlainBlockRuns(Literal, ps);
    LiteralRun(Open(ps));
    ClosedScope(Open(ps));
  }

  lemma {:induction false} BlockLends(x: string, r: string, ps: PathState)
    requires x != r && x in InScope(ps.frames) && r in ps.passing
    ensures Branched(ps, Skip(RunBlock(Block([], Some(Lend(x, false))), ps), 0), x, r, true)
  {
    InnerScope(ps.frames, x);
    PlainBlockRuns(Lend(x, false), ps);
    LendingRun(x, r, Open(ps));
    LentInside(x, r, ps, Run(Lend(x, false), F.Use, Open(ps)));
  }

  lemma LentInside(x: string, r: string, ps: PathState, inner: PathState)
    requires Has(inner, x, F.Shared, r) && inner.frames == ps.frames + [map[]]
    requires inner.point == ps.point + 1 && inner.lastUse == ps.lastUse && inner.torn == ps.torn
    ensures Branched(ps, Skip(Close(inner), 0), x, r, true)
  {
    var n := |inner.frames| - 1;
    assert n == |ps.frames| && inner.frames[n] == map[] && inner.frames[..n] == ps.frames;
    ClosedScope(inner);
    LentAfter(x, r, ps, inner, Close(inner));
  }

  lemma LentAfter(x: string, r: string, ps: PathState, inner: PathState, out: PathState)
    requires Has(inner, x, F.Shared, r) && out.live == inner.live && out.frames == ps.frames
    requires out.point == ps.point + 1 && out.lastUse == ps.lastUse && out.torn == ps.torn
    ensures Branched(ps, Skip(out, 0), x, r, true)
  {
    StillLent(inner, Skip(out, 0), x, r);
  }

  lemma InnerScope(fs: Frames, x: string)
    requires x in InScope(fs)
    ensures x in InScope(fs + [map[]]) && (fs + [map[]])[..|fs|] == fs
  {
  }

  lemma {:induction false} ElseRuns(x: string, r: string, last: bool, ps: PathState)
    requires x != r && Calm(ps) && x in InScope(ps.frames) && r in ps.passing
    ensures var e := Either(x, last); Branched(ps, Run(e.els.value, F.Use, Skip(ps, |ReadsBlock(e.thn)|)), x, r, last)
  {
    EitherReads(x, last);
    if last {
      assert Skip(ps, 0) == ps;
      LendingRun(x, r, ps);
    } else {
      LiteralRun(Skip(ps, 1));
    }
  }

  /** The taken branch borrows `x` for `r`; the other one nothing. */
  lemma {:induction false} TakenRuns(x: string, r: string, last: bool, ps: PathState)
    requires x != r && Calm(ps) && x in InScope(ps.frames) && r in ps.passing
    ensures Branched(ps, Run(Either(x, last), F.Use, ps), x, r, Through(ps.choices, last))
  {
    EitherRuns(x, last, ps);
    if Choice(ps) == 0 { ThenRuns(x, r, last, Chosen(ps)); } else { ElseRuns(x, r, last, Chosen(ps)); }
  }

  lemma {:induction false} LendingRun(x: string, r: string, ps: PathState)
    requires x != r && x in InScope(ps.frames) && r in ps.passing
    ensures var out := Run(Lend(x, false), F.Use, ps);
            Has(out, x, F.Shared, r) && out.frames == ps.frames && out.point == ps.point + 1 && out.lastUse == ps.lastUse && out.torn == ps.torn
  {
    var out := LendRun(x, false, ps);
    LentRun(x, false, ps);
  }

  lemma ClosedScope(ps: PathState)
    requires ps.frames != [] && ps.frames[|ps.frames| - 1] == map[]
    ensures var r := Close(ps); r.live == ps.live && r.torn == ps.torn && r.point == ps.point && r.lastUse == ps.lastUse
    ensures Close(ps).frames == ps.frames[..|ps.frames| - 1] && |Close(ps).closures| == |ps.closures|
  {
    assert ps.frames[|ps.frames| - 1].Keys == {};
    SurvivorsSame(ps.live);
  }

  lemma {:induction false} CalmMoves(x: string, r: string, ps: PathState)
    requires Calm(ps) && ps.frames != [] && Lookup(ps.frames, x).Some? && Lookup(ps.frames, r).Some? && x != r
    ensures RunStmts(Moving(x, r), ps).torn == ps.torn
  {
    var s, cx := ExprStmt(Move(Var(x))), F.Cx(map[x := F.Local(F.Owned, true, false, false)], [], [], map[], 0, None, []);
    MoveStep(x, cx, ps);
    assert !Pledged(ps, x);
    var ps1 := RunStmt(s, ps);
    FirstRun(s, [ExprStmt(Var(r))] + [], ps);
    FirstRun(ExprStmt(Var(r)), [], ps1);
    ReadTorn(r, ps1);
    assert RunStmts([], RunStmt(ExprStmt(Var(r)), ps1)) == RunStmt(ExprStmt(Var(r)), ps1);
  }

  lemma {:induction false} BranchingRuns(x: string, r: string, last: bool, ps: PathState)
    requires x != r && ps.frames != [] && Calm(ps) && !ps.torn && ps.point == 0 && Later(ps.lastUse, r, 2)
    ensures RunStmts(Branching(x, r, last), ps).torn <==> Through(ps.choices, last)
  {
    var cx := F.Cx(map[], [], [], map[], 0, None, []);
    LetValueStep(x, false, true, cx, ps);
    var ps1 := RunStmt(LetValue(x, false, true), ps);
    DeclareLookup(ps.frames, x, Slot(Ready, false, false, false), x);
    EitherReads(x, last);
    TakenRuns(x, r, last, Whole(ps1, {r}, 1));
    var taken := Run(Either(x, last), F.Use, Whole(ps1, {r}, 1));
    LetRefRuns(r, false, Either(x, last), ps1);
    var ps2 := RunStmt(LetRef(r, false, Either(x, last)), ps1);
    DeclareLookup(ps1.frames, r, Slot(Ready, true, true, true), x);
    DeclareLookup(ps1.frames, r, Slot(Ready, true, true, true), r);
    FirstRun(LetValue(x, false, true), [LetRef(r, false, Either(x, last))] + Moving(x, r), ps);
    FirstRun(LetRef(r, false, Either(x, last)), Moving(x, r), ps1);
    if Through(ps.choices, last) {
      StillLent(taken, ps2, x, r);
      MovingRuns(x, r, ps2);
    } else {
      CalmMoves(x, r, ps2);
    }
  }

  /** On every path through the branch that borrows, and on no other, `x` is moved while
      `r` still refers to it. It is reported if that is the last branch; if it is the
      first, the join takes `x` for owned and the body is accepted. */
  lemma {:induction false} BranchBody(x: string, r: string, last: bool, choices: seq<nat>)
    requires x != r
    ensures
      var b := Block(Branching(x, r, last), None);
      && (PathThrough([], b, choices).torn <==> Through(choices, last))
      && Checked([], b).diag == (if last then [F.CannotMoveBorrowed(x)] else [])
  {
    var ss, b := Branching(x, r, last), Block(Branching(x, r, last), None);
    var cx, ps := Opens(ss, choices);
    BranchingReads(x, r, last);
    assert ReadsBlock(b)[2] == r && ReadsBlock(b)[2 + 1..] == [];
    LastReads(b, 2);
    BranchingWalks(x, r, last, cx);
    BranchingRuns(x, r, last, ps);
    BodyEnds(ss, choices, cx, ps);
  }

  // ----- what may be assigned -----

  /** An assignment of a bound local, with nothing borrowed. */
  lemma ResetReports(x: string, cx: F.Cx)
    requires cx.ledger == [] && x in cx.locals
    ensures
      var out := F.Walk(Reset(x), F.Use, cx);
      && out.diag == cx.diag + (if cx.locals[x].mutable then [] else [F.AssignToImmut(x)])
      && out.ledger == [] && out.scopes == cx.scopes
  {
    ResetUnfolds(x, cx);
    TouchEvent(x, F.Target, cx);
  }

  /** `let x = ..; x = ..;` is reported exactly if `x` was not declared mutable. */
  lemma {:induction false} ImmutableBody(x: string, mutable: bool)
    ensures
      var b := Block([LetValue(x, false, mutable)] + ([ExprStmt(Reset(x))] + []), None);
      Checked([], b).diag == if mutable then [] else [F.AssignToImmut(x)]
  {
    var ss := [LetValue(x, false, mutable)] + ([ExprStmt(Reset(x))] + []);
    var cx, ps := Opens(ss, []);
    LetValueStep(x, false, mutable, cx, ps);
    var cx1 := F.WalkStmt(LetValue(x, false, mutable), cx);
    ResetReports(x, cx1);
    StmtWalks(Reset(x), cx1);
    FirstWalk(LetValue(x, false, mutable), [ExprStmt(Reset(x))] + [], cx);
    FirstWalk(ExprStmt(Reset(x)), [], cx1);
    assert F.WalkStmts([], F.WalkStmt(ExprStmt(Reset(x)), cx1)) == F.WalkStmt(ExprStmt(Reset(x)), cx1);
    BodyEnds(ss, [], cx, ps);
  }

  /** What a match arm binds cannot be assigned ... */
  lemma {:induction false} ArmNamesAreImmutable(x: string, ty: Ty, actual: Real, cx: F.Cx)
    requires cx.ledger == []
    ensures F.WalkArm(Arm(Named(x, ty, actual), None, Reset(x)), cx).diag == cx.diag + [F.AssignToImmut(x)]
  {
    var arm := Arm(Named(x, ty, actual), None, Reset(x));
    NamedBinds(x, ty, actual);
    BindOne(F.BindingOf(x, ty, actual), false, F.Push(cx), Open(Blank([], Block([], None), [])));
    var cx1 := F.BindAll(F.Push(cx), F.Bindings(arm.pat), false);
    ResetReports(x, cx1);
    PopsNone(F.Walk(Reset(x), F.Use, cx1));
  }

  lemma PopsNone(cx: F.Cx)
    requires cx.scopes != [] && cx.ledger == []
    ensures F.Pop(cx).diag == cx.diag
  {
  }

  /** ... nor what a loop or a lambda does. */
  lemma {:induction false} ScopeNamesAreImmutable(b: Binding, cx: F.Cx)
    requires cx.ledger == []
    ensures F.WalkScope([b], Block([], Some(Reset(b.name))), cx).diag == cx.diag + [F.AssignToImmut(b.name)]
  {
    var body := Block([], Some(Reset(b.name)));
    BindOne(b, false, F.Push(cx), Open(Blank([], Block([], None), [])));
    var cx1 := F.BindAll(F.Push(cx), [b], false);
    PlainBlockWalks(Reset(b.name), cx1);
    ResetReports(b.name, F.Push(cx1));
    PopsEmpty(F.Walk(Reset(b.name), F.Use, F.Push(cx1)));
    PopsNone(F.WalkBlock(body, cx1));
  }

  /** Parameters neither. */
  lemma {:induction false} ParamsAreImmutable(params: seq<Binding>, b: Block, x: string)
    requires x in Names(params)
    ensures x in Start(params, b).locals && !Start(params, b).locals[x].mutable
  {
    BoundAs(F.Push(F.Cx(map[], [], [], LastUses(b), 0, None, [])), params, false, x);
  }

  lemma {:induction false} BoundAs(cx: F.Cx, bs: seq<Binding>, mutable: bool, x: string)
    requires x in Names(bs) || (x in cx.locals && cx.locals[x].mutable == mutable)
    ensures var r := F.BindAll(cx, bs, mutable); x in r.locals && r.locals[x].mutable == mutable
    decreases |bs|
  {
    if bs != [] {
      NamesSplit(bs);
      BoundAs(F.Bind(cx, bs[0].name, F.Local(F.Owned, mutable, bs[0].copy, bs[0].reference)), bs[1..], mutable, x);
    }
  }
}
