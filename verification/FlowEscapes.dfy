/** The end of a scope: which borrows are reported to outlive their owner, and a whole
    body in which one that does is not. */
module FlowEscapes {
  import opened Wrappers
  import opened Hir
  import opened Places
  import opened Nll
  import opened FlowState
  import opened FlowPaths
  import opened FlowSafety
  import opened FlowTheorems
  import opened FlowBodies
  import opened FlowSteps
  import F = Flow

  // ----- one scope -----

  lemma {:induction false} OutlivesOnly(ledger: F.Ledger, names: set<string>)
    ensures forall d :: d in F.OutlivesDiags(ledger, names) ==> d.BorrowOutlivesOwner?
    decreases |ledger|
  {
    if ledger != [] { OutlivesOnly(ledger[1..], names); }
  }

  /** Leaving a scope reports a local of it exactly when some record of that local is
      held by a name that stays, and reports nothing else. */
  lemma PopReports(cx: F.Cx, x: string)
    requires cx.scopes != []
    ensures
      var added, n := F.Pop(cx).diag[|cx.diag|..], |cx.scopes| - 1;
      && (forall d :: d in added ==> d.BorrowOutlivesOwner?)
      && (F.BorrowOutlivesOwner(x) in added <==>
            x in cx.scopes[n]
            && exists r :: r in cx.ledger && r.place.root == x && r.borrower.Some? && r.borrower.value !in cx.scopes[n])
  {
    var names := F.NameSet(cx.scopes[|cx.scopes| - 1]);
    OutlivesOnly(cx.ledger, names);
    OutlivesListed(cx.ledger, names, x);
  }

  /** On a path the flag goes up exactly when a name that stays, and is read later,
      holds a borrow of a local that departs. */
  lemma CloseRaises(ps: PathState)
    requires ps.frames != [] && !ps.dangling
    ensures
      var names := ps.frames[|ps.frames| - 1].Keys;
      Close(ps).dangling <==>
        exists i, h :: 0 <= i < |ps.live| && h in ps.live[i].holders && ps.live[i].place.root in names && h !in names
                       && h in ps.lastUse && ps.lastUse[h] >= ps.point
  {
    var names := ps.frames[|ps.frames| - 1].Keys;
    if Close(ps).dangling {
      var l :| l in ps.live && Escapes(l, names, ps.lastUse, ps.point);
      var i :| 0 <= i < |ps.live| && ps.live[i] == l;
      var h :| h in l.holders && h !in names && Later(ps.lastUse, h, ps.point);
      assert h in ps.live[i].holders;
    }
    if exists i, h :: 0 <= i < |ps.live| && h in ps.live[i].holders && ps.live[i].place.root in names && h !in names
                      && h in ps.lastUse && ps.lastUse[h] >= ps.point {
      var i, h :| 0 <= i < |ps.live| && h in ps.live[i].holders && ps.live[i].place.root in names && h !in names
                  && h in ps.lastUse && ps.lastUse[h] >= ps.point;
      assert Later(ps.lastUse, h, ps.point) && Escapes(ps.live[i], names, ps.lastUse, ps.point);
      assert ps.live[i] in ps.live;
    }
  }

  // ----- a reference that leaves its scope -----

  /** The reference is the value of the block itself, or a copy of it is. */
  function Leaving(x: string, t: string, direct: bool): Block {
    if direct then Block([LetValue(x, false, true)] + [], Some(Lend(x, false)))
    else Block([LetValue(x, false, true)] + ([LetRef(t, false, Lend(x, false))] + []), Some(Var(t)))
  }

  /** `let r = { .. }; r` */
  function Escaping(x: string, t: string, r: string, direct: bool): seq<Stmt> {
    [LetRef(r, false, BlockExpr(Leaving(x, t, direct)))] + ([ExprStmt(Var(r))] + [])
  }

  function LeavingNames(x: string, t: string, direct: bool): seq<string> { if direct then [x] else [x, t] }

  lemma LeavingReads(x: string, t: string, direct: bool)
    ensures ReadsBlock(Leaving(x, t, direct)) == LeavingNames(x, t, direct)
    ensures Reads(BlockExpr(Leaving(x, t, direct))) == LeavingNames(x, t, direct)
  {
    ValueReads(x, false, true);
    StmtReads(x, t, false);
    assert Reads(Lend(x, false)) == Reads(Var(x)) == [x] && Reads(Var(t)) == [t];
    FirstReads(LetRef(t, false, Lend(x, false)), []);
    FirstReads(LetValue(x, false, true), if direct then [] else [LetRef(t, false, Lend(x, false))] + []);
  }

  lemma EscapingReads(x: string, t: string, r: string, direct: bool)
    ensures ReadsBlock(Block(Escaping(x, t, r, direct), None)) == LeavingNames(x, t, direct) + [r]
  {
    LeavingReads(x, t, direct);
    StmtReads(r, r, false);
    FirstReads(ExprStmt(Var(r)), []);
    FirstReads(LetRef(r, false, BlockExpr(Leaving(x, t, direct))), [ExprStmt(Var(r))] + []);
    assert ReadsStmt(LetRef(r, false, BlockExpr(Leaving(x, t, direct)))) == LeavingNames(x, t, direct);
  }

  // ----- through the checker -----

  lemma PopsLoan(cx: F.Cx, x: string, t: string)
    requires cx.scopes != [] && F.NameSet(cx.scopes[|cx.scopes| - 1]) == {x} && t != x
    requires cx.ledger == [F.Loan(Place(x, []), F.Shared, Some(t))]
    ensures F.Pop(cx).diag == cx.diag + [F.BorrowOutlivesOwner(x)] && F.Pop(cx).ledger == []
  {
    assert cx.ledger[1..] == [];
    assert F.Without(cx.ledger, {x}) == cx.ledger;
    assert F.NotRootedIn(cx.ledger, {x}) == [];
    assert F.OutlivesDiags(cx.ledger, {x}) == [F.BorrowOutlivesOwner(x)];
  }

  lemma PopsNothing(cx: F.Cx)
    requires cx.scopes != [] && cx.ledger == []
    ensures F.Pop(cx).diag == cx.diag && F.Pop(cx).ledger == []
  {
  }

  lemma BlockWalks(b: Block, cx: F.Cx)
    requires b.tail.Some?
    ensures F.WalkBlock(b, cx) == F.Pop(F.Walk(b.tail.value, F.Use, F.WalkStmts(b.stmts, F.Push(cx))))
  {
  }

  /** The reference itself: its record stands under `r`. */
  lemma {:induction false} DirectWalks(x: string, t: string, r: string, cx: F.Cx)
    requires x != r && Fine(cx.(pending := None)) && cx.pending == Some(r) && cx.ledger == []
    ensures var out := F.WalkBlock(Leaving(x, t, true), cx); out.diag == [F.BorrowOutlivesOwner(x)] && out.ledger == []
  {
    var cx1 := F.WalkStmt(LetValue(x, false, true), F.Push(cx));
    ValueWalks(x, F.Push(cx));
    OnlyWalk(LetValue(x, false, true), F.Push(cx));
    var cx2 := LendWalk(x, false, cx1);
    BlockWalks(Leaving(x, t, true), cx);
    assert F.NameSet([x]) == {x};
    PopsLoan(cx2, x, r);
  }

  lemma OnlyWalk(s: Stmt, cx: F.Cx)
    ensures F.WalkStmts([s] + [], cx) == F.WalkStmt(s, cx)
  {
    FirstWalk(s, [], cx);
    assert F.WalkStmts([], F.WalkStmt(s, cx)) == F.WalkStmt(s, cx);
  }

  lemma ValueWalks(x: string, cx: F.Cx)
    requires Fine(cx.(pending := None)) && cx.scopes != [] && cx.scopes[|cx.scopes| - 1] == []
    ensures var r := F.WalkStmt(LetValue(x, false, true), cx);
            Fine(r.(pending := None)) && Mutable(r, x) && r.ledger == cx.ledger && r.pending == cx.pending
            && r.point == cx.point && r.lastUse == cx.lastUse && r.scopes != [] && r.scopes[|r.scopes| - 1] == [x]
  {
    LetValueStep(x, false, true, cx, Open(Blank([], Block([], None), [])));
    BoundFine(cx, x);
  }

  lemma BoundFine(cx: F.Cx, x: string)
    requires Fine(cx.(pending := None)) && cx.scopes != [] && cx.scopes[|cx.scopes| - 1] == []
    ensures var r := F.Bind(cx, x, F.Local(F.Owned, true, false, false));
            Fine(r.(pending := None)) && Mutable(r, x) && r.ledger == cx.ledger && r.pending == cx.pending
            && r.point == cx.point && r.lastUse == cx.lastUse && r.scopes != [] && r.scopes[|r.scopes| - 1] == [x]
  {
    assert [] + [x] == [x];
  }

  /** A copy: the record stood under `t`, and ended when `t` was read. */
  lemma {:induction false} CopiedWalks(x: string, t: string, r: string, cx: F.Cx)
    requires x != t && Fine(cx.(pending := None)) && cx.pending == Some(r) && cx.ledger == []
    requires t in cx.lastUse && cx.lastUse[t] == cx.point + 1
    ensures var out := F.WalkBlock(Leaving(x, t, false), cx); out.diag == [] && out.ledger == []
  {
    var cx0 := F.Push(cx);
    ValueWalks(x, cx0);
    var cx1 := F.WalkStmt(LetValue(x, false, true), cx0);
    LetRefWalks(t, false, Lend(x, false), cx1);
    var cx2 := LendWalk(x, false, cx1.(pending := Some(t)));
    var cx3 := F.WalkStmt(LetRef(t, false, Lend(x, false)), cx1);
    FirstWalk(LetRef(t, false, Lend(x, false)), [], cx1);
    FirstWalk(LetValue(x, false, true), [LetRef(t, false, Lend(x, false))] + [], cx0);
    assert cx3.ledger == [] + [F.Loan(Place(x, []), F.Shared, Some(t))];
    var cx4 := LastReadWalk(t, F.Loan(Place(x, []), F.Shared, Some(t)), [], cx3);
    BlockWalks(Leaving(x, t, false), cx);
    PopsNothing(cx4);
  }

  lemma {:induction false} EscapeWalks(x: string, t: string, r: string, direct: bool, cx: F.Cx)
    requires x != t && x != r && t != r && Fine(cx) && cx.ledger == [] && cx.point == 0
    requires !direct ==> t in cx.lastUse && cx.lastUse[t] == 1
    ensures var out := F.WalkStmts(Escaping(x, t, r, direct), cx);
            out.diag == (if direct then [F.BorrowOutlivesOwner(x)] else []) && out.ledger == []
  {
    var b, cx0 := Leaving(x, t, direct), cx.(pending := Some(r));
    LetRefWalks(r, false, BlockExpr(b), cx);
    BlockSteps(b, cx0, Open(Blank([], Block([], None), [])));
    if direct { DirectWalks(x, t, r, cx0); } else { CopiedWalks(x, t, r, cx0); }
    var cx1 := F.WalkStmt(LetRef(r, false, BlockExpr(b)), cx);
    FirstWalk(LetRef(r, false, BlockExpr(b)), [ExprStmt(Var(r))] + [], cx);
    FirstWalk(ExprStmt(Var(r)), [], cx1);
    ReadsQuietly(r, cx1);
  }

  /** A read of an owned local, with nothing borrowed. */
  lemma ReadsQuietly(r: string, cx: F.Cx)
    requires cx.ledger == [] && r in cx.locals && cx.locals[r].state.Owned?
    ensures F.WalkStmt(ExprStmt(Var(r)), cx) == cx.(point := cx.point + 1)
  {
    StmtWalks(Var(r), cx);
    assert F.Walk(Var(r), F.Use, cx) == F.WalkPath(cx, [r], F.Use);
    TouchEvent(r, F.Use, cx);
  }

  // ----- along its path -----

  lemma BlockRuns(b: Block, ps: PathState)
    requires b.tail.Some?
    ensures RunBlock(b, ps) == Close(Run(b.tail.value, F.Use, RunStmts(b.stmts, Open(ps))))
  {
  }

  /** `r` holds a borrow of `x` when the scope of `x` ends. */
  lemma EndsDangling(ps: PathState, x: string, r: string)
    requires ps.frames != [] && x in ps.frames[|ps.frames| - 1] && r !in ps.frames[|ps.frames| - 1]
    requires Has(ps, x, F.Shared, r) && Later(ps.lastUse, r, ps.point)
    ensures Close(ps).dangling
  {
    var l :| l in ps.live && l.place == Place(x, []) && l.kind == F.Shared && r in l.holders;
    assert Escapes(l, ps.frames[|ps.frames| - 1].Keys, ps.lastUse, ps.point);
  }

  lemma {:induction false} DirectRuns(x: string, t: string, r: string, ps: PathState)
    requires x != r && ps.frames != [] && r in ps.passing && Later(ps.lastUse, r, ps.point + 1)
    ensures RunBlock(Leaving(x, t, true), ps).dangling
  {
    var ps1 := ValueRuns(x, Open(ps));
    OnlyRun(LetValue(x, false, true), Open(ps));
    var ps2 := LendRun(x, false, ps1);
    BlockRuns(Leaving(x, t, true), ps);
    EndsDangling(ps2, x, r);
  }

  lemma {:induction false} CopiedRuns(x: string, t: string, r: string, ps: PathState)
    requires x != t && x != r && t != r && ps.frames != [] && r in ps.passing && Later(ps.lastUse, r, ps.point + 2)
    ensures RunBlock(Leaving(x, t, false), ps).dangling
  {
    LeavingRuns(x, t, ps);
    CopyDangles(x, t, r, ps);
  }

  lemma CopyDangles(x: string, t: string, r: string, ps: PathState)
    requires x != t && x != r && t != r && ps.frames != [] && r in ps.passing && Later(ps.lastUse, r, ps.point + 2)
    ensures Close(Run(Var(t), F.Use, RunStmt(LetRef(t, false, Lend(x, false)), RunStmt(LetValue(x, false, true), Open(ps))))).dangling
  {
    var out := CopyOut(x, t, r, ps);
    EndsDangling(out, x, r);
  }

  lemma {:induction false} CopyOut(x: string, t: string, r: string, ps: PathState) returns (out: PathState)
    requires x != t && x != r && ps.frames != [] && r in ps.passing
    ensures out == Run(Var(t), F.Use, RunStmt(LetRef(t, false, Lend(x, false)), RunStmt(LetValue(x, false, true), Open(ps))))
    ensures Has(out, x, F.Shared, r) && out.lastUse == ps.lastUse && out.point == ps.point + 2
    ensures out.frames != [] && out.frames[|out.frames| - 1].Keys == {x, t}
  {
    var ps1 := ValueRuns(x, Open(ps));
    var ps2;
    ps2, out := CopyInside(x, t, r, ps1);
  }

  lemma LeavingRuns(x: string, t: string, ps: PathState)
    ensures
      var ps1 := RunStmt(LetValue(x, false, true), Open(ps));
      RunBlock(Leaving(x, t, false), ps) == Close(Run(Var(t), F.Use, RunStmt(LetRef(t, false, Lend(x, false)), ps1)))
  {
    TwoRun(LetValue(x, false, true), LetRef(t, false, Lend(x, false)), Open(ps));
    BlockRuns(Leaving(x, t, false), ps);
  }

  lemma OnlyRun(s: Stmt, ps: PathState)
    ensures RunStmts([s] + [], ps) == RunStmt(s, ps)
  {
    FirstRun(s, [], ps);
    assert RunStmts([], RunStmt(s, ps)) == RunStmt(s, ps);
  }

  lemma TwoRun(s1: Stmt, s2: Stmt, ps: PathState)
    ensures RunStmts([s1] + ([s2] + []), ps) == RunStmt(s2, RunStmt(s1, ps))
  {
    FirstRun(s1, [s2] + [], ps);
    FirstRun(s2, [], RunStmt(s1, ps));
    assert RunStmts([], RunStmt(s2, RunStmt(s1, ps))) == RunStmt(s2, RunStmt(s1, ps));
  }

  /** `let t = &x; t`, on the way to `r`. */
  lemma {:induction false} CopyInside(x: string, t: string, r: string, ps: PathState) returns (ps1: PathState, ps2: PathState)
    requires x != t && x != r && ps.frames != [] && ps.frames[|ps.frames| - 1].Keys == {x} && x in InScope(ps.frames) && r in ps.passing
    ensures ps1 == RunStmt(LetRef(t, false, Lend(x, false)), ps) && ps2 == Run(Var(t), F.Use, ps1)
    ensures Has(ps2, x, F.Shared, r) && ps2.lastUse == ps.lastUse && ps2.point == ps.point + 2
    ensures ps2.frames != [] && ps2.frames[|ps2.frames| - 1].Keys == {x, t}
  {
    ps1 := LendRuns(x, t, false, ps);
    LetRefRuns(t, false, Lend(x, false), ps);
    assert ps1.passing == ps.passing;
    ps2 := ReadRun(t, ps1);
  }

  /** `let mut x = ..;` in a scope just opened. */
  lemma {:induction false} ValueRuns(x: string, ps: PathState) returns (r: PathState)
    requires ps.frames != [] && ps.frames[|ps.frames| - 1] == map[]
    ensures r == RunStmt(LetValue(x, false, true), ps) && r == ps.(frames := r.frames) && r.frames != []
    ensures r.frames[|r.frames| - 1].Keys == {x} && x in InScope(r.frames)
  {
    LetValueStep(x, false, true, F.Cx(map[], [], [], map[], 0, None, []), ps);
    r := RunStmt(LetValue(x, false, true), ps);
    DeclareLookup(ps.frames, x, Slot(Ready, false, false, false), x);
  }

  lemma {:induction false} EscapeRuns(x: string, t: string, r: string, direct: bool, ps: PathState)
    requires x != t && x != r && t != r && ps.frames != [] && ps.point == 0 && Later(ps.lastUse, r, |LeavingNames(x, t, direct)|)
    ensures RunStmts(Escaping(x, t, r, direct), ps).dangling
  {
    var b := Leaving(x, t, direct);
    var ps0 := Whole(ps, {r}, |Reads(BlockExpr(b))|);
    LetRefRuns(r, false, BlockExpr(b), ps);
    BlockSteps(b, F.Cx(map[], [], [], map[], 0, None, []), ps0);
    if direct { DirectRuns(x, t, r, ps0); } else { CopiedRuns(x, t, r, ps0); }
    var ps1 := RunStmt(LetRef(r, false, BlockExpr(b)), ps);
    var ps2 := ReadRuns(r, ps1);
    ReadKeeps(r, ps1);
    FirstRun(LetRef(r, false, BlockExpr(b)), [ExprStmt(Var(r))] + [], ps);
    FirstRun(ExprStmt(Var(r)), [], ps1);
    assert RunStmts([], ps2) == ps2;
  }

  lemma ReadKeeps(y: string, ps: PathState)
    ensures RunStmt(ExprStmt(Var(y)), ps).dangling == ps.dangling
  {
    var ps0, cx := Whole(ps, {}, |Reads(Var(y))|), F.Cx(map[], [], [], map[], 0, None, []);
    ExprSteps(Var(y), cx, ps);
    ForSteps(Var(y), {}, ps);
    PathSteps(Var(y), F.Use, cx, ps0);
  }

  /** `let r = { let mut x = ..; &x }; r` and `let r = { let mut x = ..; let t = &x; t }; r`:
      on the path of either, `r` is read while it refers to a local that is gone. The
      first is reported; the second, where the reference leaves by way of a copy that
      was its last read, is accepted. */
  lemma {:induction false} EscapeBody(x: string, t: string, r: string, direct: bool, choices: seq<nat>)
    requires x != t && x != r && t != r
    ensures
      var b := Block(Escaping(x, t, r, direct), None);
      && PathThrough([], b, choices).dangling
      && Checked([], b).diag == (if direct then [F.BorrowOutlivesOwner(x)] else [])
  {
    var ss, b := Escaping(x, t, r, direct), Block(Escaping(x, t, r, direct), None);
    var n := |LeavingNames(x, t, direct)|;
    var cx, ps := Opens(ss, choices);
    EscapingReads(x, t, r, direct);
    assert ReadsBlock(b)[n] == r && ReadsBlock(b)[n + 1..] == [];
    LastReads(b, n);
    if !direct { LastReads(b, 1); }
    EscapeWalks(x, t, r, direct, cx);
    EscapeRuns(x, t, r, direct, ps);
    BodyEnds(ss, choices, cx, ps);
  }
}
