/** Whole bodies in which a lambda moves or borrows a local around it: the checker
    sees nothing of it, and a path goes wrong when the lambda is called or kept. */
module FlowLambdas {
  import opened Wrappers
  import opened Hir
  import opened Places
  import opened Nll
  import opened FlowState
  import opened FlowActs
  import opened FlowPaths
  import opened FlowSafety
  import opened FlowTheorems
  import opened FlowBodies
  import opened FlowSteps
  import opened FlowOperands
  import F = Flow

  function Closing(body: Expr): Expr { Lambda([], Block([], Some(body))) }

  /** `let f = || body;` */
  function LetLambda(f: string, body: Expr): Stmt { Let(Named(f, PlainTy(false), Real(false, false, true)), Some(Closing(body)), false) }

  /** `f()` */
  function Invoked(f: string): Expr { Call(Var(f), [], []) }

  lemma ClosingReads(f: string, body: Expr)
    ensures Reads(Closing(body)) == Reads(body) && ReadsStmt(LetLambda(f, body)) == Reads(body)
    ensures ReadsBlock(Block([], Some(body))) == Reads(body) && ActsBlock(Block([], Some(body))) == Acts(body, F.Use)
    ensures Reads(Invoked(f)) == [f] && ReadsStmt(ExprStmt(Invoked(f))) == [f]
  {
    var b := Block([], Some(body));
    assert ReadsBlock(b) == ReadsStmts([]) + Reads(body) && ActsBlock(b) == ActsStmts([]) + Acts(body, F.Use);
    assert Reads(Closing(body)) == ReadsBlock(b) && Reads(Var(f)) == [f];
  }

  // ----- through the checker -----

  lemma LetLambdaWalks(f: string, body: Expr, cx: F.Cx)
    ensures
      F.WalkStmt(LetLambda(f, body), cx)
      == F.Bind(F.Walk(Closing(body), F.Use, cx.(pending := Some(f))).(pending := cx.pending), f, F.Local(F.Owned, false, false, false))
  {
    var ty, actual := PlainTy(false), Real(false, false, true);
    var cx1 := F.Walk(Closing(body), F.Use, cx.(pending := Some(f))).(pending := cx.pending);
    var ps := Blank([], Block([], None), []);
    NamedBinds(f, ty, actual);
    LetUnfolds(Named(f, ty, actual), Closing(body), false, cx, ps);
    BindOne(F.BindingOf(f, ty, actual), false, cx1, ps);
  }

  lemma EmptyPop(cx: F.Cx)
    requires cx.scopes != [] && cx.scopes[|cx.scopes| - 1] == []
    ensures F.Pop(cx).diag == cx.diag
  {
    NothingLeaves(cx.ledger);
  }

  lemma {:induction false} NothingLeaves(ledger: F.Ledger)
    ensures F.OutlivesDiags(ledger, F.NameSet([])) == []
    decreases |ledger|
  {
    if ledger != [] { NothingLeaves(ledger[1..]); }
  }

  lemma LambdaSees(b: Block, cx: F.Cx)
    ensures var inner := F.WalkBlock(b, F.Push(cx));
            inner.scopes != [] && F.Walk(Lambda([], b), F.Use, cx) == F.Restart(F.Pop(inner), cx)
  {
    ScopeSees(b, cx);
    LambdaIsScope(b, cx);
  }

  lemma ScopeSees(b: Block, cx: F.Cx)
    ensures F.WalkBlock(b, F.Push(cx)).scopes != [] && F.WalkScope([], b, cx) == F.Pop(F.WalkBlock(b, F.Push(cx)))
  {
    assert F.BindAll(F.Push(cx), [], false) == F.Push(cx);
  }

  lemma LambdaIsScope(b: Block, cx: F.Cx)
    ensures F.Walk(Lambda([], b), F.Use, cx) == F.Restart(F.WalkScope([], b, cx), cx)
  {
    assert F.UnitBindings([]) == [];
    assert F.Walk(Lambda([], b), F.Use, cx) == F.WalkLambda(Lambda([], b), cx);
  }

  /** After a lambda that reports nothing, everything is as before but for the point. */
  lemma LambdaWalk(b: Block, cx: F.Cx)
    requires F.CleanBlock(b) && F.WalkBlock(b, F.Push(cx)).diag == cx.diag
    ensures F.Walk(Lambda([], b), F.Use, cx) == cx.(point := cx.point + |ReadsBlock(b)|)
  {
    InnerWalk(b, cx);
    LambdaSees(b, cx);
  }

  lemma InnerWalk(b: Block, cx: F.Cx)
    requires F.CleanBlock(b) && F.WalkBlock(b, F.Push(cx)).diag == cx.diag
    ensures var inner := F.WalkBlock(b, F.Push(cx));
            inner.scopes != [] && F.Restart(F.Pop(inner), cx) == cx.(point := cx.point + |ReadsBlock(b)|)
  {
    var inner := F.WalkBlock(b, F.Push(cx));
    assert inner.scopes == F.Push(cx).scopes && inner.point == cx.point + |ReadsBlock(b)| && F.Framed(cx, inner);
    Restarted(inner, cx, |ReadsBlock(b)|);
  }

  lemma Restarted(inner: F.Cx, cx: F.Cx, n: nat)
    requires F.Framed(cx, inner) && inner.scopes == F.Push(cx).scopes && inner.diag == cx.diag && inner.point == cx.point + n
    ensures F.Restart(F.Pop(inner), cx) == cx.(point := cx.point + n)
  {
    EmptyPop(inner);
  }

  lemma TailWalk(body: Expr, cx: F.Cx)
    requires F.Clean(body) && F.Walk(body, F.Use, F.Push(cx)).diag == cx.diag
    ensures F.CleanBlock(Block([], Some(body))) && F.WalkBlock(Block([], Some(body)), cx).diag == cx.diag
  {
    assert F.CleanStmts([]) && F.WalkStmts([], F.Push(cx)) == F.Push(cx);
    EmptyPop(F.Walk(body, F.Use, F.Push(cx)));
  }

  /** `let f = || body;` where the body reports nothing. */
  lemma {:induction false} LetLambdaWalk(f: string, body: Expr, cx: F.Cx) returns (r: F.Cx)
    requires Fine(cx) && F.CleanBlock(Block([], Some(body)))
    requires F.WalkBlock(Block([], Some(body)), F.Push(cx.(pending := Some(f)))).diag == []
    ensures r == F.WalkStmt(LetLambda(f, body), cx) && Fine(r)
    ensures r == cx.(locals := cx.locals[f := F.Local(F.Owned, false, false, false)], scopes := r.scopes, point := cx.point + |Reads(body)|)
  {
    LetLambdaWalks(f, body, cx);
    ClosingReads(f, body);
    LambdaWalk(Block([], Some(body)), cx.(pending := Some(f)));
    r := F.WalkStmt(LetLambda(f, body), cx);
  }

  /** `f();` */
  lemma {:induction false} InvokedWalk(f: string, cx: F.Cx) returns (r: F.Cx)
    requires Fine(cx) && forall l :: l in cx.ledger ==> l.borrower != Some(f)
    ensures r == F.WalkStmt(ExprStmt(Invoked(f)), cx) && Fine(r) && SameLocals(cx, r) && r.ledger == cx.ledger
    ensures r.point == cx.point + 1 && r.lastUse == cx.lastUse
  {
    r := ReadWalk(f, cx);
    StmtWalks(Invoked(f), cx);
    assert F.Walk(Invoked(f), F.Use, cx) == F.WalkCall(Invoked(f), cx);
  }

  // ----- on a path -----

  lemma LetLambdaRuns(f: string, body: Expr, ps: PathState)
    ensures
      var ps0 := Whole(ps, {f}, |Reads(body)|);
      var ps1 := Back(RunLambda(Closing(body), ps0), ps);
      RunStmt(LetLambda(f, body), ps) == ps1.(frames := Declare(ps1.frames, f, Slot(Ready, false, false, true)))
  {
    var ty, actual, e := PlainTy(false), Real(false, false, true), Closing(body);
    var ps1, cx := RunFor(e, {f}, ps), F.Cx(map[], [], [], map[], 0, None, []);
    ClosingReads(f, body);
    NamedBinds(f, ty, actual);
    LetUnfolds(Named(f, ty, actual), e, false, cx, ps);
    ForSteps(e, {f}, ps);
    LambdaSteps(e, Whole(ps, {f}, |Reads(e)|));
    BindOne(F.BindingOf(f, ty, actual), false, cx, ps1);
  }

  lemma LambdaSteps(e: Expr, ps: PathState)
    requires e.Lambda?
    ensures Run(e, F.Use, ps) == RunLambda(e, ps)
  {
    PartsRun(e, F.Use, ps);
  }

  /** The trial run of a body that is a single expression. */
  lemma TrialRuns(body: Expr, ps: PathState)
    ensures
      var inside := Open(Inside(ps, [], |Reads(body)|));
      var tried := RunScope(F.UnitBindings([]), Block([], Some(body)), ps);
      tried == Close(Close(Run(body, F.Use, inside)))
  {
    var b, inside := Block([], Some(body)), Open(Inside(ps, [], |Reads(body)|));
    ClosingReads("", body);
    assert RunStmts([], inside) == inside && F.UnitBindings([]) == [];
    assert RunBlock(b, Inside(ps, [], |Reads(body)|)) == Close(Run(body, F.Use, inside));
  }

  /** A body that, run where it is written, changes no flag. */
  predicate Flagless(ps: PathState, r: PathState) {
    r.clash == ps.clash && r.misuse == ps.misuse && r.dangling == ps.dangling && r.torn == ps.torn && r.choices == ps.choices
  }

  /** The end of a scope without names. */
  lemma EmptyEnds(ps: PathState)
    requires ps.frames != [] && ps.frames[|ps.frames| - 1] == map[]
    ensures Close(ps).dangling == ps.dangling
  {
  }

  lemma LambdaKeeps(body: Expr, ps: PathState)
    requires Flagless(ps, Run(body, F.Use, Open(Inside(ps, [], |Reads(body)|))))
    ensures RunLambda(Closing(body), ps) == Skip(Enclose(ps, Reads(body), Acts(body, F.Use)), |Reads(body)|)
  {
    ClosingReads("", body);
    TrialKeeps(body, ps);
  }

  lemma TrialKeeps(body: Expr, ps: PathState)
    requires Flagless(ps, Run(body, F.Use, Open(Inside(ps, [], |Reads(body)|))))
    ensures Noted(ps, RunScope(F.UnitBindings([]), Block([], Some(body)), ps)) == ps
  {
    var inside := Open(Inside(ps, [], |Reads(body)|));
    var ran := Run(body, F.Use, inside);
    TrialRuns(body, ps);
    assert AlikeFrame(inside.frames[|ps.frames|], ran.frames[|ps.frames|]);
    assert AlikeFrame(inside.frames[|ps.frames| + 1], ran.frames[|ps.frames| + 1]);
    EmptyTwice(ps, ran);
  }

  /** Two scopes without names end. */
  lemma EmptyTwice(ps: PathState, ran: PathState)
    requires |ran.frames| == |ps.frames| + 2 && ran.frames[|ps.frames|] == map[] && ran.frames[|ps.frames| + 1] == map[]
    requires Flagless(ps, ran)
    ensures Noted(ps, Close(Close(ran))) == ps
  {
    EmptyEnds(ran);
    EmptyEnds(Close(ran));
  }

  /** Nothing is held yet when the lambda captures `x`. */
  lemma {:induction false} FirstCapture(x: string, f: string, acts: seq<Act>, ps: PathState) returns (r: PathState)
    requires Calm(ps) && Lookup(ps.frames, x).Some? && f in ps.passing
    ensures Calm(r) && r.frames == ps.frames && r.point == ps.point && r.clash == ps.clash && r.misuse == ps.misuse
    ensures r.lastUse == ps.lastUse && f in r.passing
    ensures
      var r1 := CaptureAll(r, acts);
      var c := Closure([x], MovedBy(acts, InScope(ps.frames)), r1.passing, r1.limit);
      Enclose(ps, [x], acts) == Back(r1.(closures := r1.closures + [c]), ps)
  {
    var scope := InScope(ps.frames);
    assert Within([x], scope) == [x] by { assert [x][1..] == []; }
    var ps0 := Mingle(ps, F.NameSet([x]), StoresOutside(acts, scope));
    r := FollowAll(ps0, [x]);
    FollowOne(ps0, x);
  }

  lemma FollowOne(ps: PathState, x: string)
    ensures FollowAll(ps, [x]) == Follow(ps, x)
  {
    assert [x][1..] == [];
  }

  lemma CaptureOne(ps: PathState, a: Act)
    ensures CaptureAll(ps, [a]) == Capture(ps, a)
  {
    assert [a][1..] == [];
  }

  /** `f();` where the only lambda about is held by `f`. */
  lemma {:induction false} InvokedRuns(f: string, c: Closure, ps: PathState) returns (r: PathState)
    requires ps.closures == [c] && f in c.holders && Lookup(ps.frames, f).Some?
    ensures r == RunStmt(ExprStmt(Invoked(f)), ps) && r.point == ps.point + 1 && r.lastUse == ps.lastUse && r.clash == ps.clash
    ensures var called := MoveAll(ReadAll(ps, c.uses), c.moves);
            r.frames == called.frames && (Usable(ps, f) ==> r.misuse == called.misuse)
  {
    var e := Invoked(f);
    var ps0 := Whole(ps, {}, |Reads(e)|);
    ClosingReads(f, Literal);
    ExprSteps(e, F.Cx(map[], [], [], map[], 0, None, []), ps);
    ForSteps(e, {}, ps);
    CallRunSteps(e, ps0);
    var ps1 := CalleeRun(f, ps0);
    InvokeOne(f, c, InScope(ps.frames), ps1);
    r := Back(InvokeFor(ps1, e, InScope(ps.frames)), ps);
    InvokeKeeps(ps1, ps1.closures, OperandsOf(e, InScope(ps.frames)));
    CallsSame(c.uses, c.moves, ps, ps1);
  }

  lemma CallRunSteps(e: Expr, ps: PathState)
    requires e.Call?
    ensures Run(e, F.Use, ps) == InvokeFor(RunOperands(e, ps), e, InScope(ps.frames))
  {
    PartsRun(e, F.Use, ps);
    assert RunParts(e, ps) == RunCall(e, ps);
  }

  /** What a call does to the locals depends on nothing else. */
  lemma CallsSame(uses: seq<string>, moves: seq<string>, ps: PathState, r: PathState)
    requires r.frames == ps.frames
    ensures var a, b := MoveAll(ReadAll(ps, uses), moves), MoveAll(ReadAll(r, uses), moves);
            a.frames == b.frames && (a.misuse == b.misuse || ps.misuse != r.misuse)
  {
    ReadsSame(uses, ps, r);
    MovesSame(moves, ReadAll(ps, uses), ReadAll(r, uses));
  }

  lemma {:induction false} ReadsSame(xs: seq<string>, ps: PathState, r: PathState)
    requires r.frames == ps.frames
    ensures var a, b := ReadAll(ps, xs), ReadAll(r, xs); a.frames == b.frames && (ps.misuse == r.misuse ==> a.misuse == b.misuse)
    decreases |xs|
  {
    if xs != [] { ReadsSame(xs[1..], Read(ps, xs[0]), Read(r, xs[0])); }
  }

  lemma {:induction false} MovesSame(xs: seq<string>, ps: PathState, r: PathState)
    requires r.frames == ps.frames
    ensures var a, b := MoveAll(ps, xs), MoveAll(r, xs); a.frames == b.frames && (ps.misuse == r.misuse ==> a.misuse == b.misuse)
    decreases |xs|
  {
    if xs != [] {
      MoveSame(xs[0], ps, r);
      MovesSame(xs[1..], MoveOut(ps, xs[0]), MoveOut(r, xs[0]));
    }
  }

  lemma MoveSame(x: string, ps: PathState, r: PathState)
    requires r.frames == ps.frames
    ensures var a, b := MoveOut(ps, x), MoveOut(r, x); a.frames == b.frames && (ps.misuse == r.misuse ==> a.misuse == b.misuse)
  {
  }

  lemma {:induction false} CalleeRun(f: string, ps: PathState) returns (r: PathState)
    requires Lookup(ps.frames, f).Some? && |ps.closures| == 1 && f in ps.closures[0].holders
    ensures r == RunOperands(Invoked(f), ps) && r.frames == ps.frames && r.point == ps.point + 1 && r.lastUse == ps.lastUse && r.clash == ps.clash
    ensures r.misuse == (ps.misuse || !Usable(ps, f))
    ensures |r.closures| == 1 && f in r.closures[0].holders
    ensures r.closures[0].uses == ps.closures[0].uses && r.closures[0].moves == ps.closures[0].moves
  {
    var among := Among(ps, Invoked(f));
    CalleeSteps(f, ps);
    var ps1 := Follow(among, f);
    assert ps1.closures == Lent(ps.closures, f, among.passing, among.limit);
    r := Back(Tick(Read(ps1, f)), ps);
  }

  lemma CalleeSteps(f: string, ps: PathState)
    requires f in InScope(ps.frames)
    ensures RunOperands(Invoked(f), ps) == Back(Tick(Read(Follow(Among(ps, Invoked(f)), f), f)), ps)
  {
    InvokedNames(f, InScope(ps.frames));
    NoOperands(Invoked(f), ps);
    VarRun(f, F.Use, Among(ps, Invoked(f)));
  }

  lemma NoOperands(e: Expr, ps: PathState)
    requires e.Call? && e.args == [] && !Global(e, InScope(ps.frames))
    ensures RunOperands(e, ps) == Back(Run(e.callee, F.Use, Among(ps, e)), ps)
  {
    var ps1 := Run(e.callee, F.Use, Among(ps, e));
    assert Back(ps1, Among(ps, e)) == ps1 && RunRest(e, ps1) == ps1;
  }

  lemma VarRun(x: string, pos: F.Position, ps: PathState)
    requires Lookup(ps.frames, x).Some? && (pos.Use? || pos.Moving?)
    ensures Run(Var(x), pos, ps) == Tick(OnLocal(Follow(ps, x), x, pos))
  {
    PathSteps(Var(x), pos, F.Cx(map[], [], [], map[], 0, None, []), ps);
  }

  lemma InvokeOne(f: string, c: Closure, scope: set<string>, ps: PathState)
    requires f in scope && |ps.closures| == 1 && f in ps.closures[0].holders
    requires ps.closures[0].uses == c.uses && ps.closures[0].moves == c.moves
    ensures InvokeFor(ps, Invoked(f), scope) == MoveAll(ReadAll(ps, c.uses), c.moves)
  {
    InvokedNames(f, scope);
    assert f in ps.closures[0].holders * OperandsOf(Invoked(f), scope);
    InvokeSingle(ps.closures[0], ps, OperandsOf(Invoked(f), scope));
    assert ps.closures == [ps.closures[0]];
  }

  lemma InvokedNames(f: string, scope: set<string>)
    requires f in scope
    ensures f in OperandsOf(Invoked(f), scope) && !Global(Invoked(f), scope)
  {
    ClosingReads(f, Literal);
    assert Reads(Var(f)) == [f] && f in F.NameSet([f]);
  }

  lemma InvokeSingle(c: Closure, ps: PathState, names: set<string>)
    requires Called(c, names, ps.point)
    ensures Invoke(ps, [c], names) == MoveAll(ReadAll(ps, c.uses), c.moves)
  {
    assert [c][1..] == [];
  }

  // ----- a lambda that moves -----

  function Moving(x: string, f: string, copy: bool): seq<Stmt> { [LetValue(x, copy, false)] + MovingRest(x, f) }

  /** `let f = || move x; f(); x` */
  function MovingRest(x: string, f: string): seq<Stmt> {
    [LetLambda(f, Move(Var(x)))] + ([ExprStmt(Invoked(f))] + ([ExprStmt(Var(x))] + []))
  }

  /** `let x = ..; let f = || move x; f(); x` is accepted, and goes wrong exactly when the
      type of `x` is not Copy. */
  lemma {:induction false} LambdaMoveBody(x: string, f: string, copy: bool, choices: seq<nat>)
    requires x != f
    ensures
      var b := Block(Moving(x, f, copy), None);
      Checked([], b).diag == [] && (PathThrough([], b, choices).misuse <==> !copy)
  {
    var ss := Moving(x, f, copy);
    var cx, ps := Opens(ss, choices);
    var cx1, ps1 := ValueStep(x, copy, cx, ps);
    MovingWalked(x, f, cx1);
    MovingRan(x, f, ps1);
    FirstStmt(LetValue(x, copy, false), MovingRest(x, f), cx, ps);
    BodyEnds(ss, choices, cx, ps);
  }

  lemma {:induction false} MovingWalked(x: string, f: string, cx: F.Cx)
    requires x != f && Fine(cx) && cx.ledger == [] && x in cx.locals && cx.locals[x].state.Owned?
    ensures var out := F.WalkStmts(MovingRest(x, f), cx); out.diag == [] && out.ledger == []
  {
    var inner := F.Push(cx.(pending := Some(f)));
    MoveWalk(x, F.Push(inner));
    TailWalk(Move(Var(x)), inner);
    var cx1 := LetLambdaWalk(f, Move(Var(x)), cx);
    var cx2 := InvokedWalk(f, cx1);
    var cx3 := ReadWalk(x, cx2);
    StmtWalks(Var(x), cx2);
    FirstWalk(LetLambda(f, Move(Var(x))), [ExprStmt(Invoked(f))] + ([ExprStmt(Var(x))] + []), cx);
    FirstWalk(ExprStmt(Invoked(f)), [ExprStmt(Var(x))] + [], cx1);
    FirstWalk(ExprStmt(Var(x)), [], cx2);
    assert F.WalkStmts([], cx3) == cx3;
  }

  lemma MoveWalk(x: string, cx: F.Cx)
    requires cx.ledger == [] && x in cx.locals && cx.locals[x].state.Owned?
    ensures F.Walk(Move(Var(x)), F.Use, cx).diag == cx.diag && F.Clean(Move(Var(x)))
  {
    assert F.WalkMove(Move(Var(x)), cx) == F.Walk(Var(x), F.Moving, cx);
    assert F.Walk(Var(x), F.Moving, cx) == F.WalkPath(cx, [x], F.Moving);
    TouchEvent(x, F.Moving, cx);
    QuietMove(x, cx.(point := cx.point + 1));
  }

  lemma {:induction false} MovingRan(x: string, f: string, ps: PathState)
    requires x != f && Calm(ps) && !ps.misuse && Lookup(ps.frames, x).Some? && Lookup(ps.frames, x).value.status == Ready
    ensures RunStmts(MovingRest(x, f), ps).misuse <==> !Lookup(ps.frames, x).value.copy
  {
    var c, ps1 := LetMoverRuns(x, f, ps);
    var ps2 := InvokedRuns(f, c, ps1);
    OneMoved(x, ps1);
    ReadsMisuse(x, ps2);
    FirstRun(LetLambda(f, Move(Var(x))), [ExprStmt(Invoked(f))] + ([ExprStmt(Var(x))] + []), ps);
    FirstRun(ExprStmt(Invoked(f)), [ExprStmt(Var(x))] + [], ps1);
    FirstRun(ExprStmt(Var(x)), [], ps2);
    assert RunStmts([], RunStmt(ExprStmt(Var(x)), ps2)) == RunStmt(ExprStmt(Var(x)), ps2);
  }

  lemma ReadsMisuse(x: string, ps: PathState)
    requires Lookup(ps.frames, x).Some?
    ensures RunStmt(ExprStmt(Var(x)), ps).misuse <==> ps.misuse || !Usable(ps, x)
  {
    var ps0 := Whole(ps, {}, |Reads(Var(x))|);
    ExprSteps(Var(x), F.Cx(map[], [], [], map[], 0, None, []), ps);
    ForSteps(Var(x), {}, ps);
    PathSteps(Var(x), F.Use, F.Cx(map[], [], [], map[], 0, None, []), ps0);
  }

  /** What calling the lambda does to `x`. */
  lemma OneMoved(x: string, ps: PathState)
    requires !ps.misuse && Lookup(ps.frames, x).Some? && Lookup(ps.frames, x).value.status == Ready
    ensures var r := MoveAll(ReadAll(ps, [x]), [x]);
            !r.misuse && Lookup(r.frames, x).Some? && (Usable(r, x) <==> Lookup(ps.frames, x).value.copy)
  {
    CallOne(ps, x);
    assert Read(ps, x) == ps;
    SetLookup(ps.frames, x, MovedOut, x);
  }

  lemma CallOne(ps: PathState, x: string)
    ensures ReadAll(ps, [x]) == Read(ps, x) && MoveAll(ps, [x]) == MoveOut(ps, x)
  {
    assert [x][1..] == [];
  }

  lemma {:induction false} LetMoverRuns(x: string, f: string, ps: PathState) returns (c: Closure, r: PathState)
    requires x != f && Calm(ps) && !ps.misuse && Lookup(ps.frames, x).Some? && Lookup(ps.frames, x).value.status == Ready
    ensures r == RunStmt(LetLambda(f, Move(Var(x))), ps) && r.closures == [c] && c.uses == [x] && c.moves == [x] && f in c.holders
    ensures !r.misuse && Lookup(r.frames, x) == Lookup(ps.frames, x) && Lookup(r.frames, f) == Some(Slot(Ready, false, false, true))
  {
    var body := Move(Var(x));
    var ps0 := Whole(ps, {f}, |Reads(body)|);
    LetLambdaRuns(f, body, ps);
    var ps1;
    c, ps1 := MoverCaptures(x, f, ps0);
    r := RunStmt(LetLambda(f, body), ps);
    DeclareLookup(ps.frames, f, Slot(Ready, false, false, true), x);
    DeclareLookup(ps.frames, f, Slot(Ready, false, false, true), f);
  }

  lemma {:induction false} MoverCaptures(x: string, f: string, ps: PathState) returns (c: Closure, r: PathState)
    requires Calm(ps) && !ps.misuse && Lookup(ps.frames, x).Some? && Lookup(ps.frames, x).value.status == Ready && f in ps.passing
    ensures r == RunLambda(Closing(Move(Var(x))), ps) && r.closures == [c] && c.uses == [x] && c.moves == [x] && f in c.holders
    ensures r.frames == ps.frames && !r.misuse
  {
    var acts := [Moves(x)];
    MoverTrial(x, ps);
    MoverActs(x);
    LambdaKeeps(Move(Var(x)), ps);
    var ps1 := FirstCapture(x, f, acts, ps);
    CaptureOne(ps1, Moves(x));
    assert acts[1..] == [] && MovedBy(acts, InScope(ps.frames)) == [x];
    c := Closure([x], [x], ps1.passing, ps1.limit);
    r := RunLambda(Closing(Move(Var(x))), ps);
  }

  lemma MoverActs(x: string)
    ensures Acts(Move(Var(x)), F.Use) == [Moves(x)] && Reads(Move(Var(x))) == [x]
  {
    assert Acts(Var(x), F.Moving) == [Moves(x)] && Reads(Var(x)) == [x];
  }

  lemma MoverTrial(x: string, ps: PathState)
    requires Calm(ps) && !ps.misuse && Lookup(ps.frames, x).Some? && Lookup(ps.frames, x).value.status == Ready
    ensures Flagless(ps, Run(Move(Var(x)), F.Use, Open(Inside(ps, [], |Reads(Move(Var(x)))|))))
  {
    var inside := Open(Inside(ps, [], |Reads(Move(Var(x)))|));
    InnerLookup(ps, x, |Reads(Move(Var(x)))|);
    MoverRun(x, inside);
  }

  lemma MoverRun(x: string, ps: PathState)
    requires Calm(ps) && ps.passing == {} && Lookup(ps.frames, x).Some?
    ensures Run(Move(Var(x)), F.Use, ps) == Tick(MoveOut(ps, x))
  {
    MoveSteps(Var(x), F.Cx(map[], [], [], map[], 0, None, []), ps);
    VarRun(x, F.Moving, ps);
    FollowsNothing(x, ps);
  }

  /** The scopes of a lambda's body hide nothing. */
  lemma InnerLookup(ps: PathState, x: string, n: nat)
    ensures var inside := Open(Inside(ps, [], n)); inside == ps.(frames := inside.frames, passing := {}, limit := ps.point + n)
    ensures Lookup(Open(Inside(ps, [], n)).frames, x) == Lookup(ps.frames, x)
  {
    var fs := ps.frames;
    var gs := fs + [map[]];
    assert Inside(ps, [], n).frames == gs && gs[..|fs|] == fs;
    assert (gs + [map[]])[..|gs|] == gs;
    assert Lookup(gs, x) == Lookup(fs, x);
  }

  // ----- a lambda that borrows -----

  function Capturing(x: string, f: string, q: string, first: bool, second: bool): seq<Stmt> {
    [LetValue(x, false, true)] + CapturingRest(x, f, q, first, second)
  }

  /** `let f = || &mut x; let q = &mut x; f(); q`, where either borrow may be shared. */
  function CapturingRest(x: string, f: string, q: string, first: bool, second: bool): seq<Stmt> {
    [LetLambda(f, Lend(x, first))] + ([LetRef(q, second, Lend(x, second))] + ([ExprStmt(Invoked(f))] + ([ExprStmt(Var(q))] + [])))
  }

  lemma CapturingReads(x: string, f: string, q: string, first: bool, second: bool)
    ensures ReadsBlock(Block(Capturing(x, f, q, first, second), None)) == [x, x, f, q]
  {
    ClosingReads(f, Lend(x, first));
    StmtReads(x, q, second);
    StmtReads(x, q, first);
    StmtReads(q, q, second);
    ValueReads(x, false, true);
    FirstReads(ExprStmt(Var(q)), []);
    FirstReads(ExprStmt(Invoked(f)), [ExprStmt(Var(q))] + []);
    FirstReads(LetRef(q, second, Lend(x, second)), [ExprStmt(Invoked(f))] + ([ExprStmt(Var(q))] + []));
    FirstReads(LetLambda(f, Lend(x, first)), [LetRef(q, second, Lend(x, second))] + ([ExprStmt(Invoked(f))] + ([ExprStmt(Var(q))] + [])));
    FirstReads(LetValue(x, false, true), CapturingRest(x, f, q, first, second));
  }

  lemma CapturingLast(x: string, f: string, q: string, first: bool, second: bool)
    requires x != f && x != q && f != q
    ensures var last := LastUses(Block(Capturing(x, f, q, first, second), None));
            f in last && last[f] == 2 && q in last && last[q] == 3
  {
    CapturingReads(x, f, q, first, second);
    LastReads(Block(Capturing(x, f, q, first, second), None), 2);
    LastReads(Block(Capturing(x, f, q, first, second), None), 3);
  }

  /** `let mut x = ..; let f = || &mut x; let q = &mut x; f(); q` is accepted, and two
      borrows clash exactly when either is mutable. */
  lemma {:induction false} LambdaBorrowBody(x: string, f: string, q: string, first: bool, second: bool, choices: seq<nat>)
    requires x != f && x != q && f != q
    ensures
      var b := Block(Capturing(x, f, q, first, second), None);
      Checked([], b).diag == [] && (PathThrough([], b, choices).clash <==> first || second)
  {
    var ss := Capturing(x, f, q, first, second);
    var cx, ps := Opens(ss, choices);
    CapturingLast(x, f, q, first, second);
    var cx1, ps1 := ValueStarts(x, cx, ps);
    CapturingWalked(x, f, q, first, second, cx1);
    CapturingRan(x, f, q, first, second, ps1);
    FirstStmt(LetValue(x, false, true), CapturingRest(x, f, q, first, second), cx, ps);
    BodyEnds(ss, choices, cx, ps);
  }

  lemma {:induction false} CapturingWalked(x: string, f: string, q: string, first: bool, second: bool, cx: F.Cx)
    requires x != f && x != q && f != q && Fine(cx) && Mutable(cx, x) && cx.ledger == [] && q in cx.lastUse && cx.lastUse[q] == cx.point + 3
    ensures var out := F.WalkStmts(CapturingRest(x, f, q, first, second), cx); out.diag == [] && out.ledger == []
  {
    var l := F.Loan(Place(x, []), Kind(second), Some(q));
    var cx1 := LendLambdaWalk(x, f, first, cx);
    var cx2 := LendWalks(x, q, second, cx1);
    var cx3 := InvokedWalk(f, cx2);
    var cx4 := LastReadWalk(q, l, [], cx3);
    StmtWalks(Var(q), cx3);
    FirstWalk(LetLambda(f, Lend(x, first)), [LetRef(q, second, Lend(x, second))] + ([ExprStmt(Invoked(f))] + ([ExprStmt(Var(q))] + [])), cx);
    FirstWalk(LetRef(q, second, Lend(x, second)), [ExprStmt(Invoked(f))] + ([ExprStmt(Var(q))] + []), cx1);
    FirstWalk(ExprStmt(Invoked(f)), [ExprStmt(Var(q))] + [], cx2);
    FirstWalk(ExprStmt(Var(q)), [], cx3);
    assert F.WalkStmts([], cx4) == cx4;
  }

  lemma {:induction false} LendLambdaWalk(x: string, f: string, mutable: bool, cx: F.Cx) returns (r: F.Cx)
    requires x != f && Fine(cx) && Mutable(cx, x) && cx.ledger == []
    ensures r == F.WalkStmt(LetLambda(f, Lend(x, mutable)), cx) && Fine(r) && Mutable(r, x) && r.ledger == []
    ensures r.point == cx.point + 1 && r.lastUse == cx.lastUse
  {
    var inner := F.Push(cx.(pending := Some(f)));
    var lent := LendWalk(x, mutable, F.Push(inner));
    StmtReads(x, f, mutable);
    TailWalk(Lend(x, mutable), inner);
    r := LetLambdaWalk(f, Lend(x, mutable), cx);
  }

  lemma {:induction false} CapturingRan(x: string, f: string, q: string, first: bool, second: bool, ps: PathState)
    requires x != f && x != q && f != q && Calm(ps) && !ps.clash && !ps.misuse && f in ps.lastUse && ps.lastUse[f] == ps.point + 2
    requires Lookup(ps.frames, x).Some? && Lookup(ps.frames, x).value.status == Ready
    ensures RunStmts(CapturingRest(x, f, q, first, second), ps).clash <==> first || second
  {
    var c, ps1 := LetLenderRuns(x, f, first, ps);
    SecondBorrow(x, f, first, second, ps1);
    var ps2 := LendRuns(x, q, second, ps1);
    DeclareLookup(ps1.frames, q, Slot(Ready, !second, true, true), f);
    var ps3 := CallKeepsClash(f, ps2);
    var ps4 := ReadRuns(q, ps3);
    FirstRun(LetLambda(f, Lend(x, first)), [LetRef(q, second, Lend(x, second))] + ([ExprStmt(Invoked(f))] + ([ExprStmt(Var(q))] + [])), ps);
    FirstRun(LetRef(q, second, Lend(x, second)), [ExprStmt(Invoked(f))] + ([ExprStmt(Var(q))] + []), ps1);
    FirstRun(ExprStmt(Invoked(f)), [ExprStmt(Var(q))] + [], ps2);
    FirstRun(ExprStmt(Var(q)), [], ps3);
    assert RunStmts([], ps4) == ps4;
  }

  lemma SecondBorrow(x: string, f: string, first: bool, second: bool, ps: PathState)
    requires Has(ps, x, Kind(first), f) && (!first ==> AllShared(ps)) && Later(ps.lastUse, f, ps.point)
    ensures Clashes(ps, Place(x, []), Kind(second)) <==> first || second
  {
    if first || second { HasClashes(ps, x, Kind(first), f, Kind(second)); }
  }

  lemma {:induction false} CallKeepsClash(f: string, ps: PathState) returns (r: PathState)
    requires Lookup(ps.frames, f).Some?
    ensures r == RunStmt(ExprStmt(Invoked(f)), ps) && r.clash == ps.clash
  {
    var e := Invoked(f);
    var ps0 := Whole(ps, {}, |Reads(e)|);
    ExprSteps(e, F.Cx(map[], [], [], map[], 0, None, []), ps);
    ForSteps(e, {}, ps);
    CalledRun(e, ps0);
    CalleeSteps(f, ps0);
    r := RunStmt(ExprStmt(e), ps);
  }

  lemma {:induction false} LetLenderRuns(x: string, f: string, mutable: bool, ps: PathState) returns (c: Closure, r: PathState)
    requires x != f && Calm(ps) && !ps.clash && !ps.misuse && Lookup(ps.frames, x).Some? && Lookup(ps.frames, x).value.status == Ready
    ensures r == RunStmt(LetLambda(f, Lend(x, mutable)), ps) && Has(r, x, Kind(mutable), f) && (!mutable ==> AllShared(r))
    ensures !r.clash && r.point == ps.point + 1 && r.lastUse == ps.lastUse && x in InScope(r.frames) && Lookup(r.frames, f).Some?
  {
    var body := Lend(x, mutable);
    var ps0 := Whole(ps, {f}, |Reads(body)|);
    StmtReads(x, f, mutable);
    LetLambdaRuns(f, body, ps);
    var ps1;
    c, ps1 := LenderCaptures(x, f, mutable, ps0);
    r := RunStmt(LetLambda(f, body), ps);
    assert r.live == ps1.live;
    DeclareLookup(ps.frames, f, Slot(Ready, false, false, true), x);
    DeclareLookup(ps.frames, f, Slot(Ready, false, false, true), f);
  }

  lemma {:induction false} LenderCaptures(x: string, f: string, mutable: bool, ps: PathState) returns (c: Closure, r: PathState)
    requires x != f && Calm(ps) && !ps.clash && !ps.misuse && Lookup(ps.frames, x).Some? && Lookup(ps.frames, x).value.status == Ready
    requires f in ps.passing
    ensures r == RunLambda(Closing(Lend(x, mutable)), ps) && Has(r, x, Kind(mutable), f) && (!mutable ==> AllShared(r))
    ensures r.frames == ps.frames && !r.clash && r.point == ps.point + 1 && r.lastUse == ps.lastUse
  {
    var acts := [Borrows(Place(x, []), Kind(mutable))];
    LenderTrial(x, mutable, ps);
    LenderActs(x, mutable);
    LambdaKeeps(Lend(x, mutable), ps);
    var ps1 := FirstCapture(x, f, acts, ps);
    CaptureOne(ps1, acts[0]);
    var ps2 := Capture(ps1, acts[0]);
    CapturedLender(x, f, mutable, ps1);
    c := Closure([x], MovedBy(acts, InScope(ps.frames)), ps2.passing, ps2.limit);
    r := RunLambda(Closing(Lend(x, mutable)), ps);
    assert r.live == ps2.live;
  }

  lemma CapturedLender(x: string, f: string, mutable: bool, ps: PathState)
    requires x != f && Calm(ps) && !ps.clash && Lookup(ps.frames, x).Some? && f in ps.passing
    ensures
      var r := Capture(ps, Borrows(Place(x, []), Kind(mutable)));
      Has(r, x, Kind(mutable), f) && (!mutable ==> AllShared(r)) && !r.clash && r.frames == ps.frames && r.lastUse == ps.lastUse
  {
    TakeGrows(ps, x, Kind(mutable));
  }

  lemma LenderActs(x: string, mutable: bool)
    ensures Acts(Lend(x, mutable), F.Use) == [Borrows(Place(x, []), Kind(mutable))] && Reads(Lend(x, mutable)) == [x]
  {
    assert Reads(Var(x)) == [x] && x in F.NameSet([x]);
    RootPlace(x, F.NameSet([x]));
  }

  lemma LenderTrial(x: string, mutable: bool, ps: PathState)
    requires Calm(ps) && Lookup(ps.frames, x).Some? && Lookup(ps.frames, x).value.status == Ready
    ensures Flagless(ps, Run(Lend(x, mutable), F.Use, Open(Inside(ps, [], |Reads(Lend(x, mutable))|))))
  {
    var inside := Open(Inside(ps, [], |Reads(Lend(x, mutable))|));
    InnerLookup(ps, x, |Reads(Lend(x, mutable))|);
    LentRun(x, mutable, inside);
  }
}
