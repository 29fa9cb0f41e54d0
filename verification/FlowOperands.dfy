/** Whole bodies in which a reference outlives its record because a call, a tuple or
    a store passes it on. */
module FlowOperands {
  import opened Wrappers
  import opened Hir
  import opened Places
  import opened Nll
  import opened FlowState
  import opened FlowPaths
  import opened FlowSafety
  import opened FlowTheorems
  import opened FlowHoles
  import opened FlowBodies
  import opened FlowSteps
  import opened FlowAliases
  import F = Flow

  // ----- a reference beside a borrow -----

  function PairOf(x: string, r: string): Expr { Tuple([Var(r), Lend(x, true)]) }

  /** The callee may take either operand by value or by reference. */
  function CallOf(f: string, x: string, r: string, params: seq<Passing>): Expr { Call(Var(f), params, [Var(r), Lend(x, true)]) }

  lemma OneReads(a: Expr, rest: seq<Expr>)
    ensures ReadsAll([a] + rest) == Reads(a) + ReadsAll(rest)
  {
    assert ([a] + rest)[1..] == rest;
  }

  lemma PairReads(x: string, r: string)
    ensures Reads(PairOf(x, r)) == [r, x] && ReadsAll([Var(r), Lend(x, true)]) == [r, x]
  {
    OneReads(Var(r), [Lend(x, true)]);
    OneReads(Lend(x, true), []);
    assert [Var(r), Lend(x, true)] == [Var(r)] + [Lend(x, true)] && [Lend(x, true)] == [Lend(x, true)] + [];
    assert Reads(Var(r)) == [r] && Reads(Lend(x, true)) == Reads(Var(x)) == [x];
  }

  lemma CallOfReads(f: string, x: string, r: string, params: seq<Passing>)
    ensures Reads(CallOf(f, x, r, params)) == [f, r, x]
  {
    PairReads(x, r);
    assert Reads(Var(f)) == [f];
  }

  function RestOf(params: seq<Passing>): seq<Passing> { if params == [] then [] else params[1..] }

  lemma OneRun(a: Expr, rest: seq<Expr>, params: seq<Passing>, ps: PathState)
    ensures RunAll([a] + rest, ps) == RunAll(rest, Run(a, F.Use, ps))
    ensures RunArgs([a] + rest, params, ps) == RunArgs(rest, RestOf(params), Run(a, F.PositionOf(params), ps))
  {
    assert ([a] + rest)[1..] == rest;
  }

  lemma TwoRun(a: Expr, b: Expr, params: seq<Passing>, ps: PathState)
    ensures RunAll([a, b], ps) == Run(b, F.Use, Run(a, F.Use, ps))
    ensures RunArgs([a, b], params, ps) == Run(b, F.PositionOf(RestOf(params)), Run(a, F.PositionOf(params), ps))
  {
    OneRun(a, [b], params, ps);
    OneRun(b, [], RestOf(params), Run(a, F.Use, ps));
    OneRun(b, [], RestOf(params), Run(a, F.PositionOf(params), ps));
    assert [a, b] == [a] + [b] && [b] == [b] + [];
  }

  lemma OneWalk(a: Expr, rest: seq<Expr>, params: seq<Passing>, cx: F.Cx)
    ensures F.WalkAll([a] + rest, cx) == F.WalkAll(rest, F.Walk(a, F.Use, cx))
    ensures F.WalkArgs([a] + rest, params, cx) == F.WalkArgs(rest, RestOf(params), F.Walk(a, F.PositionOf(params), cx))
  {
    assert ([a] + rest)[1..] == rest;
  }

  lemma TwoWalk(a: Expr, b: Expr, params: seq<Passing>, cx: F.Cx)
    ensures F.WalkAll([a, b], cx) == F.Walk(b, F.Use, F.Walk(a, F.Use, cx))
    ensures F.WalkArgs([a, b], params, cx) == F.Walk(b, F.PositionOf(RestOf(params)), F.Walk(a, F.PositionOf(params), cx))
  {
    OneWalk(a, [b], params, cx);
    OneWalk(b, [], RestOf(params), F.Walk(a, F.Use, cx));
    OneWalk(b, [], RestOf(params), F.Walk(a, F.PositionOf(params), cx));
    assert [a, b] == [a] + [b] && [b] == [b] + [];
  }

  /** A reference passed in any position is only read, and a borrow is the same in all. */
  lemma PassedRun(r: string, pos: F.Position, ps: PathState)
    requires (pos.Use? || pos.ForShared? || pos.ForMut?) && Lookup(ps.frames, r).Some? && Lookup(ps.frames, r).value.reference
    ensures Run(Var(r), pos, ps) == Run(Var(r), F.Use, ps)
  {
    PathSteps(Var(r), pos, F.Cx(map[], [], [], map[], 0, None, []), ps);
    PathSteps(Var(r), F.Use, F.Cx(map[], [], [], map[], 0, None, []), ps);
  }

  lemma LentAnywhere(x: string, pos: F.Position, cx: F.Cx, ps: PathState)
    ensures Run(Lend(x, true), pos, ps) == Run(Lend(x, true), F.Use, ps)
    ensures F.Walk(Lend(x, true), pos, cx) == F.Walk(Lend(x, true), F.Use, cx)
  {
    assert F.Walk(Lend(x, true), pos, cx) == F.WalkBorrow(Lend(x, true), cx) == F.Walk(Lend(x, true), F.Use, cx);
    PartsRun(Lend(x, true), pos, ps);
    PartsRun(Lend(x, true), F.Use, ps);
  }

  lemma PassedWalk(r: string, pos: F.Position, cx: F.Cx)
    requires (pos.Use? || pos.ForShared? || pos.ForMut?) && r in cx.locals && cx.locals[r].reference
    ensures F.Walk(Var(r), pos, cx) == F.Walk(Var(r), F.Use, cx)
  {
    assert F.Walk(Var(r), pos, cx) == F.WalkPath(cx, [r], pos) && F.Walk(Var(r), F.Use, cx) == F.WalkPath(cx, [r], F.Use);
  }

  /** `r` and then `&mut x`, in a value that lasts beyond both. */
  lemma {:induction false} BothRun(x: string, r: string, ps: PathState)
    requires x in InScope(ps.frames) && Has(ps, x, F.Mut, r) && ps.point + 1 < ps.limit
    ensures Run(Lend(x, true), F.Use, Run(Var(r), F.Use, ps)).clash
  {
    var ps1 := ReadRun(r, ps);
    PinnedClashes(ps1, x, F.Mut, ps.limit, F.Mut);
    var ps2 := LendRun(x, true, ps1);
  }

  /** The walker sees the last read of `r` first. */
  lemma {:induction false} BothWalk(x: string, r: string, cx: F.Cx) returns (out: F.Cx)
    requires x != r && Fine(cx) && Mutable(cx, x) && cx.ledger == [F.Loan(Place(x, []), F.Mut, Some(r))]
    requires r in cx.lastUse && cx.lastUse[r] == cx.point
    ensures out == F.Walk(Lend(x, true), F.Use, F.Walk(Var(r), F.Use, cx))
    ensures out.diag == [] && out.ledger == [F.Loan(Place(x, []), F.Mut, None)]
  {
    var cx1 := LastReadWalk(r, cx.ledger[0], [], cx);
    out := LendWalk(x, true, cx1);
  }

  /** `let mut x = ..; let r = &mut x; e` */
  function Beside(x: string, r: string, e: Expr): seq<Stmt> { [LetValue(x, false, true)] + BesideRest(x, r, e) }

  function BesideRest(x: string, r: string, e: Expr): seq<Stmt> { [LetRef(r, true, Lend(x, true))] + ([ExprStmt(e)] + []) }

  lemma BesideReads(x: string, r: string, e: Expr)
    ensures ReadsBlock(Block(Beside(x, r, e), None)) == [x] + Reads(e)
  {
    StmtReads(x, r, true);
    ValueReads(x, false, true);
    FirstReads(ExprStmt(e), []);
    FirstReads(LetRef(r, true, Lend(x, true)), [ExprStmt(e)] + []);
    FirstReads(LetValue(x, false, true), BesideRest(x, r, e));
  }

  lemma {:induction false} BesideWalks(x: string, r: string, e: Expr, cx: F.Cx) returns (out: F.Cx)
    requires x != r && Fine(cx) && Mutable(cx, x) && cx.ledger == []
    ensures Fine(out) && Mutable(out, x) && out.ledger == [F.Loan(Place(x, []), F.Mut, Some(r))]
    ensures out.point == cx.point + 1 && out.lastUse == cx.lastUse && out.locals.Keys == cx.locals.Keys + {r} && out.locals[r].reference
    ensures F.WalkStmts(BesideRest(x, r, e), cx) == F.Walk(e, F.Use, out)
  {
    out := LendWalks(x, r, true, cx);
    FirstWalk(LetRef(r, true, Lend(x, true)), [ExprStmt(e)] + [], cx);
    LastStmt(e, out, Blank([], Block([], None), []));
  }

  lemma {:induction false} BesideRuns(x: string, r: string, e: Expr, ps: PathState) returns (out: PathState)
    requires x != r && x in InScope(ps.frames)
    ensures Has(out, x, F.Mut, r) && out.point == ps.point + 1 && x in InScope(out.frames) && out.lastUse == ps.lastUse
    ensures RunStmts(BesideRest(x, r, e), ps) == RunFor(e, {}, out) && Lookup(out.frames, r) == Some(Slot(Ready, false, true, true))
  {
    out := LendRuns(x, r, true, ps);
    DeclareLookup(ps.frames, r, Slot(Ready, false, true, true), x);
    DeclareLookup(ps.frames, r, Slot(Ready, false, true, true), r);
    FirstRun(LetRef(r, true, Lend(x, true)), [ExprStmt(e)] + [], ps);
    LastStmt(e, F.Cx(map[], [], [], map[], 0, None, []), out);
  }

  lemma LastStmt(e: Expr, cx: F.Cx, ps: PathState)
    ensures F.WalkStmts([ExprStmt(e)] + [], cx) == F.Walk(e, F.Use, cx) && RunStmts([ExprStmt(e)] + [], ps) == RunFor(e, {}, ps)
  {
    ExprSteps(e, cx, ps);
    FirstStmt(ExprStmt(e), [], cx, ps);
    NoStmts(F.Walk(e, F.Use, cx), RunFor(e, {}, ps));
  }

  /** `let mut x = ..; let r = &mut x; (r, &mut x)`: nothing is reported, while the tuple
      holds two mutable references to `x`. */
  lemma {:induction false} TupleBody(x: string, r: string, choices: seq<nat>)
    requires x != r
    ensures
      var b := Block(Beside(x, r, PairOf(x, r)), None);
      Checked([], b).diag == [] && PathThrough([], b, choices).clash
  {
    var ss, e := Beside(x, r, PairOf(x, r)), PairOf(x, r);
    var cx, ps := Opens(ss, choices);
    PairLast(x, r);
    var cx1, ps1 := ValueStarts(x, cx, ps);
    PairWalked(x, r, cx1);
    PairRan(x, r, ps1);
    FirstStmt(LetValue(x, false, true), BesideRest(x, r, e), cx, ps);
    BodyEnds(ss, choices, cx, ps);
  }

  lemma PairLast(x: string, r: string)
    requires x != r
    ensures var last := LastUses(Block(Beside(x, r, PairOf(x, r)), None)); r in last && last[r] == 1
  {
    BesideReads(x, r, PairOf(x, r));
    PairReads(x, r);
    LastReads(Block(Beside(x, r, PairOf(x, r)), None), 1);
  }

  lemma {:induction false} PairWalked(x: string, r: string, cx: F.Cx)
    requires x != r && Fine(cx) && Mutable(cx, x) && cx.ledger == [] && r in cx.lastUse && cx.lastUse[r] == cx.point + 1
    ensures var out := F.WalkStmts(BesideRest(x, r, PairOf(x, r)), cx); out.diag == [] && out.ledger == [F.Loan(Place(x, []), F.Mut, None)]
  {
    var cx1 := BesideWalks(x, r, PairOf(x, r), cx);
    PairWalks(x, r, cx1);
  }

  lemma {:induction false} PairRan(x: string, r: string, ps: PathState)
    requires x != r && x in InScope(ps.frames)
    ensures RunStmts(BesideRest(x, r, PairOf(x, r)), ps).clash
  {
    var ps1 := BesideRuns(x, r, PairOf(x, r), ps);
    PairRuns(x, r, ps1);
  }

  lemma {:induction false} PairWalks(x: string, r: string, cx: F.Cx)
    requires x != r && Fine(cx) && Mutable(cx, x) && cx.ledger == [F.Loan(Place(x, []), F.Mut, Some(r))]
    requires r in cx.lastUse && cx.lastUse[r] == cx.point
    ensures var out := F.Walk(PairOf(x, r), F.Use, cx); out.diag == [] && out.ledger == [F.Loan(Place(x, []), F.Mut, None)]
  {
    var out := BothWalk(x, r, cx);
    TwoWalk(Var(r), Lend(x, true), [], cx);
  }

  lemma {:induction false} PairRuns(x: string, r: string, ps: PathState)
    requires x in InScope(ps.frames) && Has(ps, x, F.Mut, r)
    ensures RunFor(PairOf(x, r), {}, ps).clash
  {
    var ps0 := Whole(ps, {}, |Reads(PairOf(x, r))|);
    PairReads(x, r);
    ForSteps(PairOf(x, r), {}, ps);
    assert Has(ps0, x, F.Mut, r);
    BothRun(x, r, ps0);
    TwoRun(Var(r), Lend(x, true), [], ps0);
  }

  /** `let mut x = ..; let r = &mut x; f(r, &mut x)`: the same, for the operands of a call. */
  lemma {:induction false} OperandBody(f: string, x: string, r: string, params: seq<Passing>, choices: seq<nat>)
    requires x != r && f != x && f != r
    ensures
      var b := Block(Beside(x, r, CallOf(f, x, r, params)), None);
      Checked([], b).diag == [] && PathThrough([], b, choices).clash
  {
    var ss, e := Beside(x, r, CallOf(f, x, r, params)), CallOf(f, x, r, params);
    var cx, ps := Opens(ss, choices);
    CallLast(f, x, r, params);
    var cx1, ps1 := ValueStarts(x, cx, ps);
    CallWalked(f, x, r, params, cx1);
    CallRan(f, x, r, params, ps1);
    FirstStmt(LetValue(x, false, true), BesideRest(x, r, e), cx, ps);
    BodyEnds(ss, choices, cx, ps);
  }

  lemma CallLast(f: string, x: string, r: string, params: seq<Passing>)
    requires x != r
    ensures var last := LastUses(Block(Beside(x, r, CallOf(f, x, r, params)), None)); r in last && last[r] == 2
  {
    BesideReads(x, r, CallOf(f, x, r, params));
    CallOfReads(f, x, r, params);
    LastReads(Block(Beside(x, r, CallOf(f, x, r, params)), None), 2);
  }

  lemma {:induction false} CallWalked(f: string, x: string, r: string, params: seq<Passing>, cx: F.Cx)
    requires x != r && f != r && Fine(cx) && Mutable(cx, x) && cx.ledger == [] && r in cx.lastUse && cx.lastUse[r] == cx.point + 2
    ensures var out := F.WalkStmts(BesideRest(x, r, CallOf(f, x, r, params)), cx); out.diag == [] && out.ledger == [F.Loan(Place(x, []), F.Mut, None)]
  {
    var cx1 := BesideWalks(x, r, CallOf(f, x, r, params), cx);
    CallWalks(f, x, r, params, cx1);
  }

  lemma {:induction false} CallRan(f: string, x: string, r: string, params: seq<Passing>, ps: PathState)
    requires x != r && x in InScope(ps.frames)
    ensures RunStmts(BesideRest(x, r, CallOf(f, x, r, params)), ps).clash
  {
    var ps1 := BesideRuns(x, r, CallOf(f, x, r, params), ps);
    CallRuns(f, x, r, params, ps1);
  }

  lemma {:induction false} CallWalks(f: string, x: string, r: string, params: seq<Passing>, cx: F.Cx)
    requires x != r && f != r && Fine(cx) && Mutable(cx, x) && cx.ledger == [F.Loan(Place(x, []), F.Mut, Some(r))]
    requires r in cx.locals && cx.locals[r].reference && r in cx.lastUse && cx.lastUse[r] == cx.point + 1
    ensures var out := F.Walk(CallOf(f, x, r, params), F.Use, cx); out.diag == [] && out.ledger == [F.Loan(Place(x, []), F.Mut, None)]
  {
    var cx1 := ReadWalk(f, cx);
    var out := BothWalk(x, r, cx1);
    CallSteps(f, x, r, params, cx);
  }

  lemma CallSteps(f: string, x: string, r: string, params: seq<Passing>, cx: F.Cx)
    requires var cx1 := F.Walk(Var(f), F.Use, cx); r in cx1.locals && cx1.locals[r].reference
    ensures F.Walk(CallOf(f, x, r, params), F.Use, cx) == F.Walk(Lend(x, true), F.Use, F.Walk(Var(r), F.Use, F.Walk(Var(f), F.Use, cx)))
  {
    var cx1 := F.Walk(Var(f), F.Use, cx);
    TwoWalk(Var(r), Lend(x, true), params, cx1);
    PassedWalk(r, F.PositionOf(params), cx1);
    LentAnywhere(x, F.PositionOf(RestOf(params)), F.Walk(Var(r), F.Use, cx1), Blank([], Block([], None), []));
    assert F.Walk(CallOf(f, x, r, params), F.Use, cx) == F.WalkCall(CallOf(f, x, r, params), cx);
  }

  lemma {:induction false} CallRuns(f: string, x: string, r: string, params: seq<Passing>, ps: PathState)
    requires x in InScope(ps.frames) && Has(ps, x, F.Mut, r)
    requires Lookup(ps.frames, r).Some? && Lookup(ps.frames, r).value.reference
    ensures RunFor(CallOf(f, x, r, params), {}, ps).clash
  {
    var e := CallOf(f, x, r, params);
    var ps0 := Whole(ps, {}, |Reads(e)|);
    CallOfReads(f, x, r, params);
    ForSteps(e, {}, ps);
    assert Has(ps0, x, F.Mut, r);
    OperandsRun(f, x, r, params, ps0);
    CalledRun(e, ps0);
  }

  /** The lambdas that a call is given do not undo a clash. */
  lemma CalledRun(e: Expr, ps: PathState)
    requires e.Call? || e.MethodCall?
    ensures var r, r0 := Run(e, F.Use, ps), RunOperands(e, ps);
            r == r0.(frames := r.frames, misuse := r.misuse, torn := r.torn) && (r0.closures == [] ==> r == r0)
  {
    var r0 := RunOperands(e, ps);
    InvokeKeeps(r0, r0.closures, OperandsOf(e, InScope(ps.frames)));
    PartsRun(e, F.Use, ps);
    assert RunParts(e, ps) == InvokeFor(r0, e, InScope(ps.frames));
  }

  lemma {:induction false} OperandsRun(f: string, x: string, r: string, params: seq<Passing>, ps: PathState)
    requires x in InScope(ps.frames) && Has(ps, x, F.Mut, r) && ps.point + 2 < ps.limit
    requires Lookup(ps.frames, r).Some? && Lookup(ps.frames, r).value.reference
    ensures RunOperands(CallOf(f, x, r, params), ps).clash
  {
    var e, among := CallOf(f, x, r, params), Among(ps, CallOf(f, x, r, params));
    var ps0 := if Global(e, InScope(ps.frames)) then Toward(ps, {}, ps.limit) else among;
    var ps1 := ReadRun(f, ps0);
    StillHas(ps0, ps1, x, F.Mut, r);
    var ps2 := Back(ps1, among);
    assert Has(ps2, x, F.Mut, r);
    BothPassed(x, r, params, ps2);
    BothRun(x, r, ps2);
    assert RunOperands(e, ps) == Back(RunRest(e, ps2), ps);
    assert RunRest(e, ps2) == RunArgs([Var(r), Lend(x, true)], params, ps2);
  }

  lemma BothPassed(x: string, r: string, params: seq<Passing>, ps: PathState)
    requires Lookup(ps.frames, r).Some? && Lookup(ps.frames, r).value.reference
    ensures RunArgs([Var(r), Lend(x, true)], params, ps) == Run(Lend(x, true), F.Use, Run(Var(r), F.Use, ps))
  {
    TwoRun(Var(r), Lend(x, true), params, ps);
    PassedRun(r, F.PositionOf(params), ps);
    LentAnywhere(x, F.PositionOf(RestOf(params)), F.Cx(map[], [], [], map[], 0, None, []), Run(Var(r), F.Use, ps));
  }

  // ----- a reference pushed into a local -----

  function Push(v: string, r: string): Expr { MethodCall(Var(v), [Var(r)]) }

  lemma PushReads(v: string, r: string)
    ensures Reads(Push(v, r)) == [v, r]
  {
    OneReads(Var(r), []);
    assert [Var(r)] == [Var(r)] + [] && Reads(Var(v)) == [v] && Reads(Var(r)) == [r];
  }

  /** A call of a method with one operand. */
  lemma MethodSteps(a: Expr, b: Expr, cx: F.Cx, ps: PathState)
    ensures F.Walk(MethodCall(a, [b]), F.Use, cx) == F.Walk(b, F.Use, F.Walk(a, F.ForShared, cx))
    ensures RunRest(MethodCall(a, [b]), ps) == Run(b, F.Use, ps)
  {
    OneWalk(b, [], [], F.Walk(a, F.ForShared, cx));
    OneRun(b, [], [], ps);
    assert [b] == [b] + [];
    assert F.Walk(MethodCall(a, [b]), F.Use, cx) == F.WalkCall(MethodCall(a, [b]), cx);
  }

  function Pushing(v: string, x: string, r: string, q: string): seq<Stmt> {
    [LetHolder(v)] + ([LetValue(x, false, true)] + PushingRest(v, x, r, q))
  }

  function PushingRest(v: string, x: string, r: string, q: string): seq<Stmt> {
    [LetRef(r, true, Lend(x, true))] + ([ExprStmt(Push(v, r))] + Lending(x, v, q))
  }

  lemma PushingReads(v: string, x: string, r: string, q: string)
    ensures ReadsBlock(Block(Pushing(v, x, r, q), None)) == [x, v, r, x, v, q]
  {
    LendingReads(x, v, q);
    PushReads(v, r);
    StmtReads(x, r, true);
    StmtReads(x, v, true);
    ValueReads(x, false, true);
    FirstReads(ExprStmt(Push(v, r)), Lending(x, v, q));
    FirstReads(LetRef(r, true, Lend(x, true)), [ExprStmt(Push(v, r))] + Lending(x, v, q));
    FirstReads(LetValue(x, false, true), PushingRest(v, x, r, q));
    FirstReads(LetHolder(v), [LetValue(x, false, true)] + PushingRest(v, x, r, q));
  }

  /** `v.push(r);` where `v` can hold a reference. */
  lemma {:induction false} PushRuns(v: string, x: string, r: string, ps: PathState) returns (out: PathState)
    requires x != v && Has(ps, x, F.Mut, r) && ps.closures == []
    requires Lookup(ps.frames, v).Some? && Lookup(ps.frames, v).value.carries && !Lookup(ps.frames, v).value.reference
    ensures out == RunStmt(ExprStmt(Push(v, r)), ps) && Has(out, x, F.Mut, v)
    ensures out.frames == ps.frames && out.point == ps.point + 2 && out.lastUse == ps.lastUse
  {
    var e := Push(v, r);
    var ps0 := Whole(ps, {}, |Reads(e)|);
    PushReads(v, r);
    ExprSteps(e, F.Cx(map[], [], [], map[], 0, None, []), ps);
    ForSteps(e, {}, ps);
    assert Has(ps0, x, F.Mut, r);
    var ps1 := PushRun(v, x, r, ps0);
    CalledRun(e, ps0);
    out := Back(ps1, ps);
    assert out.live == ps1.live;
  }

  lemma {:induction false} PushRun(v: string, x: string, r: string, ps: PathState) returns (out: PathState)
    requires x != v && Has(ps, x, F.Mut, r) && ps.closures == []
    requires Lookup(ps.frames, v).Some? && Lookup(ps.frames, v).value.carries && !Lookup(ps.frames, v).value.reference
    ensures out == RunOperands(Push(v, r), ps) && Has(out, x, F.Mut, v) && out.closures == []
    ensures out.frames == ps.frames && out.point == ps.point + 2 && out.lastUse == ps.lastUse
  {
    var e, among := Push(v, r), Among(ps, Push(v, r));
    PushReads(v, r);
    OperandsMingle(ps, e, v);
    var ps1 := ReceiverRun(v, among);
    assert Has(among, x, F.Mut, r);
    StillHas(among, ps1, x, F.Mut, r);
    var ps2 := ReadRun(r, ps1);
    assert Has(ps2, x, F.Mut, v);
    MethodSteps(Var(v), Var(r), F.Cx(map[], [], [], map[], 0, None, []), ps1);
    out := Back(ps2, ps);
    MethodRuns(e, ps);
    assert Back(ps1, among) == ps1 && out.live == ps2.live;
  }

  lemma MethodRuns(e: Expr, ps: PathState)
    requires e.MethodCall?
    ensures RunOperands(e, ps) == Back(RunRest(e, Back(Run(e.receiver, F.ForShared, Among(ps, e)), Among(ps, e))), ps)
  {
  }

  /** A receiver is passed by reference. */
  lemma {:induction false} ReceiverRun(v: string, ps: PathState) returns (r: PathState)
    requires Lookup(ps.frames, v).Some? && !Lookup(ps.frames, v).value.reference
    ensures r == Run(Var(v), F.ForShared, ps) && Grown(ps, r) && r.frames == ps.frames && r.point == ps.point + 1
    ensures r.passing == ps.passing && r.limit == ps.limit
  {
    var ps1 := Follow(ps, v);
    var ps2 := Take(ps1, Place(v, []), F.Shared);
    FollowGrows(ps, v);
    TakeGrows(ps1, v, F.Shared);
    GrownTwice(ps, ps1, ps2);
    PathSteps(Var(v), F.ForShared, F.Cx(map[], [], [], map[], 0, None, []), ps);
    r := Tick(ps2);
    assert OnPath(ps, [v], F.ForShared) == r;
  }

  /** The record of `r` is gone, and an anonymous one of `v` is left. */
  lemma {:induction false} PushWalks(v: string, x: string, r: string, cx: F.Cx) returns (out: F.Cx)
    requires x != v && v != r && Fine(cx) && Mutable(cx, v) && !cx.locals[v].reference && Mutable(cx, x)
    requires cx.ledger == [F.Loan(Place(x, []), F.Mut, Some(r))] && r in cx.lastUse && cx.lastUse[r] == cx.point + 1
    ensures out == F.WalkStmt(ExprStmt(Push(v, r)), cx) && Fine(out) && Mutable(out, x)
    ensures out.ledger == [F.Loan(Place(v, []), F.Shared, None)] && out.point == cx.point + 2 && out.lastUse == cx.lastUse
  {
    var k := F.Loan(Place(v, []), F.Shared, None);
    var cx1 := ReceiverWalk(v, cx);
    out := ReadWalk(r, cx1);
    assert cx1.ledger == [cx.ledger[0]] + [k];
    WithoutFirst(cx.ledger[0], [k], r);
    NoneHeld([k], r);
    StmtWalks(Push(v, r), cx);
    MethodSteps(Var(v), Var(r), cx, Blank([], Block([], None), []));
  }

  lemma {:induction false} ReceiverWalk(v: string, cx: F.Cx) returns (r: F.Cx)
    requires Fine(cx) && Mutable(cx, v) && !cx.locals[v].reference && Unlent(cx.ledger, v)
    ensures r == F.Walk(Var(v), F.ForShared, cx) && Fine(r) && SameLocals(cx, r)
    ensures r.ledger == cx.ledger + [F.Loan(Place(v, []), F.Shared, None)] && r.point == cx.point + 1 && r.lastUse == cx.lastUse
  {
    var cx1 := F.TryBorrow(F.Advance(cx), Place(v, []), F.Shared);
    NoConflict(cx.ledger, v, F.Shared);
    DecayIsFine(v, cx1);
    NoneHeld(cx1.ledger, v);
    assert F.TouchPath(F.Advance(cx), [v], F.ForShared) == cx1;
    r := F.DecayAfterUse(cx1, v);
    assert F.Walk(Var(v), F.ForShared, cx) == F.WalkPath(cx, [v], F.ForShared);
  }

  predicate FourApart(a: string, b: string, c: string, d: string) { a != b && a != c && a != d && b != c && b != d && c != d }

  /** `let mut v = ..; let mut x = ..; let r = &mut x; v.push(r); let q = &mut x; v; q`:
      nothing is reported, while `v` and `q` hold two live mutable references to `x`. */
  lemma {:induction false} PushBody(v: string, x: string, r: string, q: string, choices: seq<nat>)
    requires FourApart(v, x, r, q)
    ensures
      var b := Block(Pushing(v, x, r, q), None);
      Checked([], b).diag == [] && PathThrough([], b, choices).clash
  {
    var ss, b := Pushing(v, x, r, q), Block(Pushing(v, x, r, q), None);
    var cx, ps := Opens(ss, choices);
    PushingReads(v, x, r, q);
    LastReads(b, 2);
    LastReads(b, 4);
    LastReads(b, 5);
    var cx1, ps1, cx2, ps2 := HolderAndValue(v, x, cx, ps);
    var rest := PushingRest(v, x, r, q);
    PushWalked(v, x, r, q, cx2);
    PushRan(v, x, r, q, ps2);
    FirstStmt(LetHolder(v), [LetValue(x, false, true)] + rest, cx, ps);
    FirstStmt(LetValue(x, false, true), rest, cx1, ps1);
    BodyEnds(ss, choices, cx, ps);
  }

  /** `let mut v = ..; let mut x = ..;` */
  lemma {:induction false} HolderAndValue(v: string, x: string, cx: F.Cx, ps: PathState) returns (cx1: F.Cx, ps1: PathState, cx2: F.Cx, ps2: PathState)
    requires v != x && Fine(cx) && ps.frames != [] && cx.ledger == []
    ensures cx1 == F.WalkStmt(LetHolder(v), cx) && ps1 == RunStmt(LetHolder(v), ps)
    ensures cx2 == F.WalkStmt(LetValue(x, false, true), cx1) && ps2 == RunStmt(LetValue(x, false, true), ps1)
    ensures Fine(cx2) && Mutable(cx2, v) && !cx2.locals[v].reference && Mutable(cx2, x) && cx2.ledger == []
    ensures cx2.point == cx.point && cx2.lastUse == cx.lastUse
    ensures ps2 == ps.(frames := ps2.frames) && Lookup(ps2.frames, v) == Some(Slot(Ready, false, false, true))
    ensures Lookup(ps2.frames, x) == Some(Slot(Ready, false, false, false))
  {
    ps1 := HolderRuns(v, cx, ps);
    cx1 := F.WalkStmt(LetHolder(v), cx);
    cx2, ps2 := ValueStarts(x, cx1, ps1);
    DeclareLookup(ps.frames, v, Slot(Ready, false, false, true), v);
    DeclareLookup(ps1.frames, x, Slot(Ready, false, false, false), v);
  }

  lemma {:induction false} PushWalked(v: string, x: string, r: string, q: string, cx: F.Cx)
    requires FourApart(v, x, r, q) && Fine(cx) && Mutable(cx, v) && !cx.locals[v].reference && Mutable(cx, x) && cx.ledger == [] && cx.point == 0
    requires r in cx.lastUse && cx.lastUse[r] == 2 && q in cx.lastUse && cx.lastUse[q] == 5
    ensures var out := F.WalkStmts(PushingRest(v, x, r, q), cx);
            out.diag == [] && forall l :: l in out.ledger ==> l.borrower.None?
  {
    var cx1 := LendWalks(x, r, true, cx);
    var cx2 := PushWalks(v, x, r, cx1);
    LendingWalks(x, v, q, cx2);
    FirstWalk(LetRef(r, true, Lend(x, true)), [ExprStmt(Push(v, r))] + Lending(x, v, q), cx);
    FirstWalk(ExprStmt(Push(v, r)), Lending(x, v, q), cx1);
  }

  lemma {:induction false} PushRan(v: string, x: string, r: string, q: string, ps: PathState)
    requires FourApart(v, x, r, q) && ps.closures == [] && ps.point == 0 && v in ps.lastUse && ps.lastUse[v] == 4
    requires Lookup(ps.frames, v) == Some(Slot(Ready, false, false, true)) && x in InScope(ps.frames)
    ensures RunStmts(PushingRest(v, x, r, q), ps).clash
  {
    var ps1 := LendRuns(x, r, true, ps);
    DeclareLookup(ps.frames, r, Slot(Ready, false, true, true), x);
    DeclareLookup(ps.frames, r, Slot(Ready, false, true, true), v);
    var ps2 := PushRuns(v, x, r, ps1);
    LendingRuns(x, v, q, ps2);
    FirstRun(LetRef(r, true, Lend(x, true)), [ExprStmt(Push(v, r))] + Lending(x, v, q), ps);
    FirstRun(ExprStmt(Push(v, r)), Lending(x, v, q), ps1);
  }

  // ----- a reference stored through another -----

  function Store(p: string, r: string): Expr { Assign(false, true, Unary(true, false, Var(p)), Var(r)) }

  lemma StoreReads(p: string, r: string)
    ensures Reads(Store(p, r)) == [p, r] && Reads(Unary(true, false, Var(p))) == [p]
  {
    assert Reads(Var(p)) == [p] && Reads(Var(r)) == [r] && Reads(Unary(true, false, Var(p))) == Reads(Var(p));
  }

  function Storing(y: string, p: string, x: string, r: string, q: string): seq<Stmt> {
    [LetHolder(y)] + ([LetValue(x, false, true)] + StoringRest(y, p, x, r, q))
  }

  function StoringRest(y: string, p: string, x: string, r: string, q: string): seq<Stmt> {
    [LetRef(p, true, Lend(y, true))] + ([LetRef(r, true, Lend(x, true))] + ([ExprStmt(Store(p, r))] + Lending(x, y, q)))
  }

  lemma StoringReads(y: string, p: string, x: string, r: string, q: string)
    ensures ReadsBlock(Block(Storing(y, p, x, r, q), None)) == [y, x, p, r, x, y, q]
  {
    LendingReads(x, y, q);
    StoreReads(p, r);
    StmtReads(y, p, true);
    StmtReads(x, r, true);
    StmtReads(x, y, true);
    ValueReads(x, false, true);
    FirstReads(ExprStmt(Store(p, r)), Lending(x, y, q));
    FirstReads(LetRef(r, true, Lend(x, true)), [ExprStmt(Store(p, r))] + Lending(x, y, q));
    FirstReads(LetRef(p, true, Lend(y, true)), [LetRef(r, true, Lend(x, true))] + ([ExprStmt(Store(p, r))] + Lending(x, y, q)));
    FirstReads(LetValue(x, false, true), StoringRest(y, p, x, r, q));
    FirstReads(LetHolder(y), [LetValue(x, false, true)] + StoringRest(y, p, x, r, q));
  }

  /** `*p = r;` where `p` is tied to `y`. */
  lemma {:induction false} StoreRan(y: string, p: string, x: string, r: string, ps: PathState) returns (out: PathState)
    requires x != y && Has(ps, x, F.Mut, r) && (y, p) in ps.ties && Lookup(ps.frames, y).Some? && Lookup(ps.frames, y).value.carries
    ensures out == RunStmt(ExprStmt(Store(p, r)), ps) && Has(out, x, F.Mut, y)
    ensures out.frames == ps.frames && out.point == ps.point + 2 && out.lastUse == ps.lastUse
  {
    var e := Store(p, r);
    var ps0 := Whole(ps, {}, |Reads(e)|);
    StoreReads(p, r);
    ExprSteps(e, F.Cx(map[], [], [], map[], 0, None, []), ps);
    ForSteps(e, {}, ps);
    assert Has(ps0, x, F.Mut, r);
    var ps1 := StoreRun(y, p, x, r, ps0);
    PartsRun(e, F.Use, ps0);
    assert RunParts(e, ps0) == RunAssign(e, ps0);
    out := Back(ps1, ps);
    assert out.live == ps1.live;
  }

  lemma {:induction false} StoreRun(y: string, p: string, x: string, r: string, ps: PathState) returns (out: PathState)
    requires x != y && Has(ps, x, F.Mut, r) && (y, p) in ps.ties && Lookup(ps.frames, y).Some? && Lookup(ps.frames, y).value.carries
    ensures out == RunAssign(Store(p, r), ps) && Has(out, x, F.Mut, y)
    ensures out.frames == ps.frames && out.point == ps.point + 2 && out.lastUse == ps.lastUse
  {
    var e, psl := Store(p, r), Toward(ps, {}, ps.limit);
    StoreReads(p, r);
    var ps0 := ReadRun(p, psl);
    DerefRun(p, psl);
    var ps1 := Back(ps0, ps);
    assert Has(psl, x, F.Mut, r);
    StillHas(psl, ps0, x, F.Mut, r);
    StoreReachesOwner(ps1, e, p, y);
    assert Has(TowardTarget(ps1, e), x, F.Mut, r);
    var ps2 := ReadRun(r, TowardTarget(ps1, e));
    out := Back(ps2, ps);
    assert out.live == ps2.live && Has(ps2, x, F.Mut, y);
  }

  lemma DerefRun(p: string, ps: PathState)
    ensures Run(Unary(true, false, Var(p)), F.Target, ps) == Run(Var(p), F.Use, ps)
  {
  }

  /** Both records are gone. */
  lemma {:induction false} StoreWalks(y: string, p: string, x: string, r: string, cx: F.Cx) returns (out: F.Cx)
    requires p != r && Fine(cx) && Mutable(cx, x)
    requires cx.ledger == [F.Loan(Place(y, []), F.Mut, Some(p))] + [F.Loan(Place(x, []), F.Mut, Some(r))]
    requires p in cx.lastUse && cx.lastUse[p] == cx.point && r in cx.lastUse && cx.lastUse[r] == cx.point + 1
    ensures out == F.WalkStmt(ExprStmt(Store(p, r)), cx) && Fine(out) && Mutable(out, x)
    ensures out.ledger == [] && out.point == cx.point + 2 && out.lastUse == cx.lastUse
  {
    var k := F.Loan(Place(x, []), F.Mut, Some(r));
    var cx1 := ReadWalk(p, cx);
    WithoutFirst(cx.ledger[0], [k], p);
    NoneHeld([k], p);
    out := LastReadWalk(r, k, [], cx1);
    StmtWalks(Store(p, r), cx);
    StoreSteps(p, r, cx);
  }

  lemma StoreSteps(p: string, r: string, cx: F.Cx)
    ensures F.Walk(Store(p, r), F.Use, cx) == F.Walk(Var(r), F.Use, F.Walk(Var(p), F.Use, cx))
  {
    assert F.Walk(Unary(true, false, Var(p)), F.Target, cx) == F.Walk(Var(p), F.Use, cx);
    assert F.Walk(Store(p, r), F.Use, cx) == F.WalkAssign(Store(p, r), cx);
  }

  predicate FiveApart(a: string, b: string, c: string, d: string, e: string) {
    FourApart(a, b, c, d) && a != e && b != e && c != e && d != e
  }

  /** `let mut y = ..; let mut x = ..; let p = &mut y; let r = &mut x; *p = r; let q = &mut x; y; q`:
      nothing is reported, while `y` and `q` hold two live mutable references to `x`. */
  lemma {:induction false} StoreBody(y: string, p: string, x: string, r: string, q: string, choices: seq<nat>)
    requires FiveApart(y, p, x, r, q)
    ensures
      var b := Block(Storing(y, p, x, r, q), None);
      Checked([], b).diag == [] && PathThrough([], b, choices).clash
  {
    var ss := Storing(y, p, x, r, q);
    var cx, ps := Opens(ss, choices);
    StoreLast(y, p, x, r, q);
    var cx1, ps1, cx2, ps2 := HolderAndValue(y, x, cx, ps);
    StoreWalked(y, p, x, r, q, cx2);
    StoreRanOn(y, p, x, r, q, ps2);
    FirstStmt(LetHolder(y), [LetValue(x, false, true)] + StoringRest(y, p, x, r, q), cx, ps);
    FirstStmt(LetValue(x, false, true), StoringRest(y, p, x, r, q), cx1, ps1);
    BodyEnds(ss, choices, cx, ps);
  }

  lemma StoreLast(y: string, p: string, x: string, r: string, q: string)
    requires FiveApart(y, p, x, r, q)
    ensures var last := LastUses(Block(Storing(y, p, x, r, q), None));
            && p in last && last[p] == 2 && r in last && last[r] == 3 && y in last && last[y] == 5 && q in last && last[q] == 6
  {
    var b := Block(Storing(y, p, x, r, q), None);
    StoringReads(y, p, x, r, q);
    LastReads(b, 2);
    LastReads(b, 3);
    LastReads(b, 5);
    LastReads(b, 6);
  }

  lemma {:induction false} StoreWalked(y: string, p: string, x: string, r: string, q: string, cx: F.Cx)
    requires FiveApart(y, p, x, r, q) && Fine(cx) && Mutable(cx, y) && Mutable(cx, x) && cx.ledger == [] && cx.point == 0
    requires p in cx.lastUse && cx.lastUse[p] == 2 && r in cx.lastUse && cx.lastUse[r] == 3 && q in cx.lastUse && cx.lastUse[q] == 6
    ensures var out := F.WalkStmts(StoringRest(y, p, x, r, q), cx); out.diag == [] && out.ledger == []
  {
    var cx1 := LendWalks(y, p, true, cx);
    var cx2 := LendWalks(x, r, true, cx1);
    var cx3 := StoreWalks(y, p, x, r, cx2);
    LendingWalks(x, y, q, cx3);
    FirstWalk(LetRef(p, true, Lend(y, true)), [LetRef(r, true, Lend(x, true))] + ([ExprStmt(Store(p, r))] + Lending(x, y, q)), cx);
    FirstWalk(LetRef(r, true, Lend(x, true)), [ExprStmt(Store(p, r))] + Lending(x, y, q), cx1);
    FirstWalk(ExprStmt(Store(p, r)), Lending(x, y, q), cx2);
  }

  lemma {:induction false} StoreRanOn(y: string, p: string, x: string, r: string, q: string, ps: PathState)
    requires FiveApart(y, p, x, r, q) && ps.point == 0 && y in ps.lastUse && ps.lastUse[y] == 5
    requires Lookup(ps.frames, y) == Some(Slot(Ready, false, false, true)) && x in InScope(ps.frames)
    ensures RunStmts(StoringRest(y, p, x, r, q), ps).clash
  {
    var slot := Slot(Ready, false, true, true);
    var ps1 := LendRuns(y, p, true, ps);
    DeclareLookup(ps.frames, p, slot, x);
    DeclareLookup(ps.frames, p, slot, y);
    var ps2 := LendRuns(x, r, true, ps1);
    DeclareLookup(ps1.frames, r, slot, x);
    DeclareLookup(ps1.frames, r, slot, y);
    var ps3 := StoreRan(y, p, x, r, ps2);
    LendingRuns(x, y, q, ps3);
    FirstRun(LetRef(p, true, Lend(y, true)), [LetRef(r, true, Lend(x, true))] + ([ExprStmt(Store(p, r))] + Lending(x, y, q)), ps);
    FirstRun(LetRef(r, true, Lend(x, true)), [ExprStmt(Store(p, r))] + Lending(x, y, q), ps1);
    FirstRun(ExprStmt(Store(p, r)), Lending(x, y, q), ps2);
  }
}
