/** Loops in the checker: how often a body is walked, where the walk then stands against
    the pre-pass, and a whole body that is accepted because the two have come apart. */
module FlowLoops {
  import opened Wrappers
  import opened Hir
  import opened Places
  import opened Nll
  import opened FlowState
  import opened FlowPaths
  import opened FlowSafety
  import opened FlowTheorems
  import opened FlowBodies
  import opened FlowSteps
  import opened FlowAliases
  import opened FlowTrace
  import opened FlowMoves
  import F = Flow

  // ----- passes -----

  /** What a loop keeps from one pass to the next. */
  datatype Entry = Entry(pat: Option<Pattern>, body: Block, locals: F.Locals, ledger: F.Ledger)

  function Pass(l: Entry, cx: F.Cx): F.Cx { F.LoopStep(l.pat, l.body, l.locals, l.ledger, cx) }

  /** The state after some passes. */
  function Passes(l: Entry, n: nat, cx: F.Cx): F.Cx
    decreases n
  {
    if n == 0 then cx else Passes(l, n - 1, Pass(l, cx))
  }

  /** The number of records after some passes, if it was `prev` before the first. */
  function Records(l: Entry, prev: nat, k: nat, cx: F.Cx): nat { if k == 0 then prev else |Passes(l, k, cx).ledger| }

  lemma RecordsNext(l: Entry, prev: nat, k: nat, cx: F.Cx)
    requires k > 0
    ensures Records(l, prev, k, cx) == Records(l, |Pass(l, cx).ledger|, k - 1, Pass(l, cx))
  {
    if k == 1 { assert Passes(l, 1, cx) == Passes(l, 0, Pass(l, cx)); }
  }

  /** A loop stops at the first pass that leaves as many records as there were before
      it, and after `left` further passes at the latest. */
  lemma {:induction false} LoopStops(l: Entry, prev: nat, left: nat, cx: F.Cx) returns (n: nat)
    ensures F.LoopFix(l.pat, l.body, l.locals, l.ledger, prev, left, cx) == Passes(l, n, cx)
    ensures 1 <= n <= left + 1 && (n <= left ==> Records(l, prev, n, cx) == Records(l, prev, n - 1, cx))
    ensures forall k :: 0 < k < n ==> Records(l, prev, k, cx) != Records(l, prev, k - 1, cx)
    decreases left
  {
    var cx1 := Pass(l, cx);
    RecordsNext(l, prev, 1, cx);
    if left == 0 || |cx1.ledger| == prev {
      n := 1;
      assert Passes(l, 1, cx) == Passes(l, 0, cx1);
    } else {
      var m := LoopStops(l, |cx1.ledger|, left - 1, cx1);
      n := m + 1;
      RecordsNext(l, prev, n, cx);
      RecordsNext(l, prev, m, cx);
      forall k | 0 < k < n ensures Records(l, prev, k, cx) != Records(l, prev, k - 1, cx) {
        RecordsNext(l, prev, k, cx);
        if k > 1 { RecordsNext(l, prev, k - 1, cx); }
      }
    }
  }

  /** After a pass there are the records from before the loop and those that the pass
      leaves, and no others. */
  lemma PassJoins(l: Entry, cx: F.Cx)
    ensures var once := F.LoopOnce(l.pat, l.body, cx);
            forall r :: r in Pass(l, cx).ledger <==> r in l.ledger || r in once.ledger
    ensures var once := F.LoopOnce(l.pat, l.body, cx);
            forall x :: x in l.locals && x in once.locals ==>
              x in Pass(l, cx).locals && Pass(l, cx).locals[x].state == F.JoinState(l.locals[x].state, once.locals[x].state)
  {
  }

  // ----- points -----

  lemma PassesPoint(l: Entry, n: nat, cx: F.Cx)
    requires F.CleanBlock(l.body)
    ensures Passes(l, n, cx).point == cx.point + n * |ReadsBlock(l.body)| && Passes(l, n, cx).lastUse == cx.lastUse
  {
    forall c: F.Cx ensures Moves(l, c, |ReadsBlock(l.body)|) { PassPoint(l, c); }
    PassesMove(l, n, cx, |ReadsBlock(l.body)|);
  }

  /** A pass takes `k` points. */
  predicate Moves(l: Entry, cx: F.Cx, k: nat) { Pass(l, cx).point == cx.point + k && Pass(l, cx).lastUse == cx.lastUse }

  lemma {:induction false} PassesMove(l: Entry, n: nat, cx: F.Cx, k: nat)
    requires forall c: F.Cx :: Moves(l, c, k)
    ensures Passes(l, n, cx).point == cx.point + n * k && Passes(l, n, cx).lastUse == cx.lastUse
    decreases n
  {
    if n > 0 {
      assert Moves(l, cx, k);
      PassesMove(l, n - 1, Pass(l, cx), k);
      OneMore(n, k);
    }
  }

  lemma PassPoint(l: Entry, cx: F.Cx)
    requires F.CleanBlock(l.body)
    ensures Pass(l, cx).point == cx.point + |ReadsBlock(l.body)| && Pass(l, cx).lastUse == cx.lastUse
  {
  }

  lemma OneMore(n: nat, k: nat)
    requires n > 0
    ensures n * k == (n - 1) * k + k
  {
  }

  /** In every pass the reads of the body come in the order of the pre-pass, each pass
      as many points later as the body has reads. */
  lemma {:induction false} PassStamped(l: Entry, k: nat, cx: F.Cx)
    requires F.CleanBlock(l.body)
    ensures
      var cx1 := Passes(l, k, cx);
      var inside := if l.pat.None? then cx1 else F.BindAll(F.Push(cx1), F.Bindings(l.pat.value), false);
      Stamped(TraceBlock(l.body, inside), ReadsBlock(l.body), cx.point + k * |ReadsBlock(l.body)|, cx.lastUse)
  {
    var cx1 := Passes(l, k, cx);
    PassesPoint(l, k, cx);
    if l.pat.Some? { F.BindFrames(F.Push(cx1), F.Bindings(l.pat.value), false); }
    BlockStamped(l.body, if l.pat.None? then cx1 else F.BindAll(F.Push(cx1), F.Bindings(l.pat.value), false));
  }

  function LoopBody(e: Expr): Block
    requires e.For? || e.While? || e.Loop?
  {
    e.body
  }

  /** The reads before the first pass. */
  function Head(e: Expr): seq<string>
    requires e.For? || e.While? || e.Loop?
  {
    if e.For? then Reads(e.iter) else if e.While? then Reads(e.cond) else []
  }

  predicate CleanLoop(e: Expr) {
    (e.For? && F.Clean(e.iter) && F.CleanBlock(e.body)) || (e.While? && F.Clean(e.cond) && F.CleanBlock(e.body))
    || (e.Loop? && F.CleanBlock(e.body))
  }

  /** The state in which the body of a loop is first walked. */
  function AtHead(e: Expr, cx: F.Cx): F.Cx
    requires e.For? || e.While? || e.Loop?
  {
    if e.For? then F.Walk(e.iter, F.Use, cx) else if e.While? then F.Walk(e.cond, F.Use, cx) else cx
  }

  lemma HeadPoint(e: Expr, cx: F.Cx)
    requires CleanLoop(e)
    ensures AtHead(e, cx).point == cx.point + |Head(e)| && Reads(e) == Head(e) + ReadsBlock(LoopBody(e))
  {
  }

  lemma {:induction false} LoopIsPasses(e: Expr, cx: F.Cx) returns (l: Entry, n: nat)
    requires e.For? || e.While? || e.Loop?
    ensures F.WalkLoop(e, cx) == Passes(l, n, AtHead(e, cx)) && 1 <= n <= 17
    ensures l == Entry(if e.For? then Some(e.pat) else None, LoopBody(e), AtHead(e, cx).locals, AtHead(e, cx).ledger)
  {
    var cx1 := AtHead(e, cx);
    l := Entry(if e.For? then Some(e.pat) else None, LoopBody(e), cx1.locals, cx1.ledger);
    n := LoopStops(l, |cx1.ledger|, 16, cx1);
  }

  /** After a loop the walk is in step with the pre-pass exactly if the body was walked
      once or reads nothing. */
  lemma {:induction false} LoopInStep(e: Expr, cx: F.Cx) returns (n: nat)
    requires CleanLoop(e)
    ensures 1 <= n <= 17 && F.WalkLoop(e, cx).point == cx.point + |Head(e)| + n * |ReadsBlock(LoopBody(e))|
    ensures F.WalkLoop(e, cx).point == cx.point + |Reads(e)| <==> n == 1 || ReadsBlock(LoopBody(e)) == []
  {
    var l: Entry;
    l, n := LoopIsPasses(e, cx);
    HeadPoint(e, cx);
    PassesPoint(l, n, AtHead(e, cx));
    Multiples(n, |ReadsBlock(LoopBody(e))|);
  }

  lemma Multiples(n: nat, k: nat)
    requires n >= 1
    ensures n * k == k <==> n == 1 || k == 0
  {
    if n > 1 && k > 0 { assert n * k >= 2 * k; }
  }

  // ----- a body in which they come apart -----

  /** `{ &z; z; }` */
  function Touching(z: string): Block { Block([ExprStmt(Lend(z, false))] + ([ExprStmt(Var(z))] + []), None) }

  function Looping(z: string): Expr { While(Literal, Touching(z)) }

  /** `let mut x = ..; let mut z = ..; let r = &mut x; while .. { &z; z; } r; let q = &mut x; r; q` */
  function Drifting(x: string, z: string, r: string, q: string): seq<Stmt> {
    [LetValue(x, false, true)] + ([LetValue(z, false, true)] + ([LetRef(r, true, Lend(x, true))] + Drifted(x, z, r, q)))
  }

  function Drifted(x: string, z: string, r: string, q: string): seq<Stmt> {
    [ExprStmt(Looping(z))] + ([ExprStmt(Var(r))] + Lending(x, r, q))
  }

  lemma LoopingReads(z: string)
    ensures Reads(Looping(z)) == [z, z] && ReadsBlock(Touching(z)) == [z, z]
  {
    StmtReads(z, z, false);
    assert Reads(Lend(z, false)) == Reads(Var(z)) == [z];
    FirstReads(ExprStmt(Var(z)), []);
    FirstReads(ExprStmt(Lend(z, false)), [ExprStmt(Var(z))] + []);
  }

  lemma DriftingReads(x: string, z: string, r: string, q: string)
    ensures ReadsBlock(Block(Drifting(x, z, r, q), None)) == [x, z, z, r, x, r, q]
  {
    LendingReads(x, r, q);
    LoopingReads(z);
    StmtReads(r, r, true);
    StmtReads(x, r, true);
    ValueReads(x, false, true);
    ValueReads(z, false, true);
    FirstReads(ExprStmt(Var(r)), Lending(x, r, q));
    FirstReads(ExprStmt(Looping(z)), [ExprStmt(Var(r))] + Lending(x, r, q));
    FirstReads(LetRef(r, true, Lend(x, true)), Drifted(x, z, r, q));
    FirstReads(LetValue(z, false, true), [LetRef(r, true, Lend(x, true))] + Drifted(x, z, r, q));
    FirstReads(LetValue(x, false, true), [LetValue(z, false, true)] + ([LetRef(r, true, Lend(x, true))] + Drifted(x, z, r, q)));
  }

  // ----- its walk -----

  /** Only shared borrows of `z`, and none under its name. */
  predicate OnlyShared(ledger: F.Ledger, z: string) {
    forall k :: k in ledger ==> (k.place.root == z ==> k.kind == F.Shared) && k.borrower != Some(z)
  }

  function LoanOf(z: string): F.Loan { F.Loan(Place(z, []), F.Shared, None) }

  lemma NoneDecays(z: string, cx: F.Cx)
    requires forall k :: k in cx.ledger ==> k.borrower != Some(z)
    ensures F.DecayAfterUse(cx, z) == cx
  {
    NoneHeld(cx.ledger, z);
  }

  /** `&z` of an owned local. */
  lemma TouchLends(z: string, cx: F.Cx)
    requires cx.pending.None? && z in cx.locals && cx.locals[z].state.Owned? && OnlyShared(cx.ledger, z)
    ensures F.Walk(Lend(z, false), F.Use, cx)
         == cx.(point := cx.point + 1, ledger := cx.ledger + [LoanOf(z)], locals := cx.locals[z := cx.locals[z].(state := F.Borrowed(1))])
  {
    LentWalk(z, false, cx);
    var cx1 := F.TryBorrow(cx, Place(z, []), F.Shared);
    assert !F.AnyOverlap(cx.ledger, Place(z, []), F.Mut);
    assert cx1.diag == cx.diag;
    NoneDecays(z, F.Advance(cx1));
  }

  lemma TouchReads(z: string, cx: F.Cx)
    requires z in cx.locals && cx.locals[z].state.Borrowed? && OnlyShared(cx.ledger, z)
    ensures F.Walk(Var(z), F.Use, cx) == cx.(point := cx.point + 1)
  {
    assert F.Walk(Var(z), F.Use, cx) == F.WalkPath(cx, [z], F.Use);
    NoneDecays(z, F.Advance(cx));
  }

  lemma {:induction false} TouchWalks(z: string, cx: F.Cx)
    requires cx.pending.None? && z in cx.locals && cx.locals[z].state.Owned? && OnlyShared(cx.ledger, z)
    ensures F.WalkBlock(Touching(z), cx)
         == cx.(point := cx.point + 2, ledger := cx.ledger + [LoanOf(z)], locals := cx.locals[z := cx.locals[z].(state := F.Borrowed(1))])
  {
    var cx0 := F.Push(cx);
    TouchLends(z, cx0);
    var cx1 := F.Walk(Lend(z, false), F.Use, cx0);
    TouchReads(z, cx1);
    var cx2 := cx1.(point := cx1.point + 1);
    StmtWalks(Lend(z, false), cx0);
    StmtWalks(Var(z), cx1);
    FirstWalk(ExprStmt(Lend(z, false)), [ExprStmt(Var(z))] + [], cx0);
    FirstWalk(ExprStmt(Var(z)), [], cx1);
    assert F.WalkStmts([], cx2) == cx2;
    BareBlockWalks(Touching(z), cx);
    PopsEmpty(cx2);
    assert cx0.scopes[..|cx.scopes|] == cx.scopes;
  }

  lemma BareBlockWalks(b: Block, cx: F.Cx)
    requires b.tail.None?
    ensures F.WalkBlock(b, cx) == F.Pop(F.WalkStmts(b.stmts, F.Push(cx)))
  {
  }

  function LoopEntry(z: string, l: F.Loan, cx: F.Cx): Entry { Entry(None, Touching(z), cx.locals, [l]) }

  /** A pass from the state before the loop, or from that after the first pass. */
  lemma {:induction false} PassWalks(z: string, l: F.Loan, base: F.Cx, cx: F.Cx)
    requires base.pending.None? && z in base.locals && base.locals[z].state.Owned? && OnlyShared([l], z) && l != LoanOf(z)
    requires cx == base.(point := cx.point, ledger := cx.ledger) && (cx.ledger == [l] || cx.ledger == [l] + [LoanOf(z)])
    ensures Pass(LoopEntry(z, l, base), cx) == cx.(point := cx.point + 2, ledger := [l] + [LoanOf(z)])
  {
    var e := LoopEntry(z, l, base);
    TouchWalks(z, cx);
    var once := F.LoopOnce(None, e.body, cx);
    assert once == F.WalkBlock(Touching(z), cx);
    BackToOwned(base.locals, z);
    Deduplicates(l, LoanOf(z));
  }

  /** A shared borrow in the body is forgotten in the state. */
  lemma BackToOwned(locals: F.Locals, z: string)
    requires z in locals && locals[z].state.Owned?
    ensures F.JoinLocals(locals, locals[z := locals[z].(state := F.Borrowed(1))]) == locals
  {
    var after := F.JoinLocals(locals, locals[z := locals[z].(state := F.Borrowed(1))]);
    forall y | y in locals ensures y in after && after[y] == locals[y] {
      JoinSame(locals[y].state);
      assert F.JoinState(F.Owned, F.Borrowed(1)) == F.Owned;
    }
  }

  lemma Deduplicates(a: F.Loan, b: F.Loan)
    requires a != b
    ensures F.JoinLedgers([a], [a] + [b]) == [a] + [b] && F.JoinLedgers([a], [a] + [b] + [b]) == [a] + [b]
  {
    assert [a][1..] == [] && F.AddNew([], [a]) == [a];
    assert ([a] + [b])[1..] == [b] && [b][1..] == [] && ([a] + [b] + [b])[1..] == [b] + [b] && ([b] + [b])[1..] == [b];
    assert F.AddNew([a] + [b], [b]) == F.AddNew([a] + [b], []) == [a] + [b];
    assert F.AddNew([a], [b] + [b]) == F.AddNew([a] + [b], [b]);
    assert F.AddNew([a], [a] + [b]) == F.AddNew([a], [b]) == F.AddNew([a] + [b], []);
    assert F.AddNew([a], [a] + [b] + [b]) == F.AddNew([a], [b] + [b]);
  }

  /** Two passes: the first one adds a record. */
  lemma {:induction false} LoopingWalks(z: string, l: F.Loan, cx: F.Cx)
    requires cx.pending.None? && z in cx.locals && cx.locals[z].state.Owned? && OnlyShared([l], z) && l != LoanOf(z) && cx.ledger == [l]
    ensures F.WalkStmt(ExprStmt(Looping(z)), cx) == cx.(point := cx.point + 4, ledger := [l] + [LoanOf(z)])
  {
    var e := LoopEntry(z, l, cx);
    PassWalks(z, l, cx, cx);
    var cx1 := Pass(e, cx);
    PassWalks(z, l, cx, cx1);
    StmtWalks(Looping(z), cx);
    WhileUnfolds(z, cx);
    TwoPasses(e, cx);
  }

  lemma WhileUnfolds(z: string, cx: F.Cx)
    ensures F.Walk(Looping(z), F.Use, cx) == F.LoopFix(None, Touching(z), cx.locals, cx.ledger, |cx.ledger|, 16, cx)
  {
    LiteralWalks(cx);
    WhileWalks(Looping(z), cx, cx);
  }

  lemma WhileWalks(e: Expr, cx: F.Cx, cx1: F.Cx)
    requires e.While? && cx1 == F.Walk(e.cond, F.Use, cx)
    ensures F.Walk(e, F.Use, cx) == F.LoopFix(None, e.body, cx1.locals, cx1.ledger, |cx1.ledger|, 16, cx1)
  {
    assert F.Walk(e, F.Use, cx) == F.WalkLoop(e, cx);
  }

  lemma TwoPasses(l: Entry, cx: F.Cx)
    requires |Pass(l, cx).ledger| != |cx.ledger| && |Pass(l, Pass(l, cx)).ledger| == |Pass(l, cx).ledger|
    ensures F.LoopFix(l.pat, l.body, l.locals, l.ledger, |cx.ledger|, 16, cx) == Pass(l, Pass(l, cx))
  {
    var cx1 := Pass(l, cx);
    assert F.LoopFix(l.pat, l.body, l.locals, l.ledger, |cx1.ledger|, 15, cx1) == Pass(l, cx1);
  }

  /** `r; let q = &mut x; r; q` after the loop: the first read of `r` comes at a point
      beyond its last, so its record ends. */
  lemma {:induction false} DriftedWalks(x: string, z: string, r: string, q: string, cx: F.Cx)
    requires x != z && x != r && x != q && z != r && z != q && r != q && Fine(cx) && Mutable(cx, x) && r in cx.locals
    requires z in cx.locals && cx.locals[z].state.Owned? && cx.ledger == [F.Loan(Place(x, []), F.Mut, Some(r))] && cx.point == 1
    requires r in cx.lastUse && cx.lastUse[r] == 5 && q in cx.lastUse && cx.lastUse[q] == 6
    ensures var out := F.WalkStmts(Drifted(x, z, r, q), cx); out.diag == [] && forall k :: k in out.ledger ==> k.borrower.None?
  {
    var l := F.Loan(Place(x, []), F.Mut, Some(r));
    LoopingWalks(z, l, cx);
    var cx1 := F.WalkStmt(ExprStmt(Looping(z)), cx);
    FirstWalk(ExprStmt(Looping(z)), [ExprStmt(Var(r))] + Lending(x, r, q), cx);
    FirstWalk(ExprStmt(Var(r)), Lending(x, r, q), cx1);
    StmtWalks(Var(r), cx1);
    var cx2 := ReadWalk(r, cx1);
    WithoutFirst(l, [LoanOf(z)], r);
    NoneHeld([LoanOf(z)], r);
    assert cx2.ledger == [LoanOf(z)];
    LendingWalks(x, r, q, cx2);
  }

  lemma {:induction false} DriftingWalks(x: string, z: string, r: string, q: string, cx: F.Cx)
    requires x != z && x != r && x != q && z != r && z != q && r != q
    requires Fine(cx) && cx.ledger == [] && cx.scopes != [] && cx.point == 0
    requires r in cx.lastUse && cx.lastUse[r] == 5 && q in cx.lastUse && cx.lastUse[q] == 6
    ensures var out := F.WalkStmts(Drifting(x, z, r, q), cx); out.diag == [] && forall k :: k in out.ledger ==> k.borrower.None?
  {
    var ps := Open(Blank([], Block([], None), []));
    var cx1, ps1 := ValueStarts(x, cx, ps);
    var cx2, ps2 := ValueStarts(z, cx1, ps);
    var cx3 := LendWalks(x, r, true, cx2);
    FirstWalk(LetRef(r, true, Lend(x, true)), Drifted(x, z, r, q), cx2);
    FirstWalk(LetValue(z, false, true), [LetRef(r, true, Lend(x, true))] + Drifted(x, z, r, q), cx1);
    FirstWalk(LetValue(x, false, true), [LetValue(z, false, true)] + ([LetRef(r, true, Lend(x, true))] + Drifted(x, z, r, q)), cx);
    OwnedStill(x, z, r, cx2);
    assert cx3.ledger == [F.Loan(Place(x, []), F.Mut, Some(r))];
    DriftedWalks(x, z, r, q, cx3);
  }

  /** Borrowing one local leaves another owned. */
  lemma OwnedStill(x: string, z: string, r: string, cx: F.Cx)
    requires x != z && z != r && x in cx.locals && z in cx.locals && cx.locals[z].state.Owned? && cx.ledger == [] && cx.pending.None?
    ensures var out := F.WalkStmt(LetRef(r, true, Lend(x, true)), cx); z in out.locals && out.locals[z] == cx.locals[z]
  {
    var cx0 := cx.(pending := Some(r));
    LetRefWalks(r, true, Lend(x, true), cx);
    LentWalk(x, true, cx0);
    var cx1 := F.Advance(F.TryBorrow(cx0, Place(x, []), F.Mut));
    DecayKeeps(x, z, cx1);
  }

  lemma DecayKeeps(x: string, z: string, cx: F.Cx)
    requires x != z && z in cx.locals && forall k :: k in cx.ledger ==> k.place.root == x
    ensures F.DecayAfterUse(cx, x).locals.Keys == cx.locals.Keys && F.DecayAfterUse(cx, x).locals[z] == cx.locals[z]
  {
    RecomputeOthers(cx.locals, F.Without(cx.ledger, {x}), F.Held(cx.ledger, {x}), x, z);
  }

  lemma {:induction false} RecomputeOthers(locals: F.Locals, ledger: F.Ledger, removed: F.Ledger, x: string, z: string)
    requires x != z && z in locals && forall k :: k in removed ==> k.place.root == x
    ensures F.RecomputeAll(locals, ledger, removed)[z] == locals[z]
    decreases |removed|
  {
    if removed != [] { RecomputeOthers(F.Recompute(locals, ledger, removed[0].place.root), ledger, removed[1..], x, z); }
  }

  // ----- a path that never enters the loop -----

  lemma {:induction false} LoopSkipped(z: string, ps: PathState)
    ensures RunStmt(ExprStmt(Looping(z)), ps) == Skip(ps, 2)
  {
    var e, cx := Looping(z), F.Cx(map[], [], [], map[], 0, None, []);
    LoopingReads(z);
    ExprSteps(e, cx, ps);
    ForSteps(e, {}, ps);
    PartsRun(e, F.Use, Whole(ps, {}, |Reads(e)|));
  }

  lemma {:induction false} DriftedRuns(x: string, z: string, r: string, q: string, ps: PathState)
    requires x != q && x in InScope(ps.frames) && Has(ps, x, F.Mut, r) && ps.point == 1 && Later(ps.lastUse, r, 4)
    ensures RunStmts(Drifted(x, z, r, q), ps).clash
  {
    LoopSkipped(z, ps);
    var ps1 := Skip(ps, 2);
    assert Has(ps1, x, F.Mut, r);
    var ps2 := ReadRuns(r, ps1);
    StillHas(ps1, ps2, x, F.Mut, r);
    LendingRuns(x, r, q, ps2);
    FirstRun(ExprStmt(Looping(z)), [ExprStmt(Var(r))] + Lending(x, r, q), ps);
    FirstRun(ExprStmt(Var(r)), Lending(x, r, q), ps1);
  }

  lemma {:induction false} DriftingRuns(x: string, z: string, r: string, q: string, ps: PathState)
    requires x != z && x != r && x != q && z != r && ps.frames != [] && ps.point == 0 && Later(ps.lastUse, r, 4)
    ensures RunStmts(Drifting(x, z, r, q), ps).clash
  {
    var cx := F.Cx(map[], [], [], map[], 0, None, []);
    LetValueStep(x, false, true, cx, ps);
    var ps1 := RunStmt(LetValue(x, false, true), ps);
    DeclareLookup(ps.frames, x, Slot(Ready, false, false, false), x);
    LetValueStep(z, false, true, cx, ps1);
    var ps2 := RunStmt(LetValue(z, false, true), ps1);
    DeclareLookup(ps1.frames, z, Slot(Ready, false, false, false), x);
    var ps3 := LendRuns(x, r, true, ps2);
    DeclareLookup(ps2.frames, r, Slot(Ready, false, true, true), x);
    DriftedRuns(x, z, r, q, ps3);
    FirstRun(LetRef(r, true, Lend(x, true)), Drifted(x, z, r, q), ps2);
    FirstRun(LetValue(z, false, true), [LetRef(r, true, Lend(x, true))] + Drifted(x, z, r, q), ps1);
    FirstRun(LetValue(x, false, true), [LetValue(z, false, true)] + ([LetRef(r, true, Lend(x, true))] + Drifted(x, z, r, q)), ps);
  }

  /** The body is accepted, while `r` and `q` are two live mutable references to `x`
      on the path that does not enter the loop: walking its body twice has put the walk two
      points ahead of the pre-pass. */
  lemma {:induction false} DriftBody(x: string, z: string, r: string, q: string, choices: seq<nat>)
    requires x != z && x != r && x != q && z != r && z != q && r != q
    ensures
      var b := Block(Drifting(x, z, r, q), None);
      Checked([], b).diag == [] && PathThrough([], b, choices).clash
  {
    var ss, b := Drifting(x, z, r, q), Block(Drifting(x, z, r, q), None);
    var cx, ps := Opens(ss, choices);
    DriftingReads(x, z, r, q);
    LastReads(b, 5);
    LastReads(b, 6);
    DriftingWalks(x, z, r, q, cx);
    DriftingRuns(x, z, r, q, ps);
    BodyEnds(ss, choices, cx, ps);
  }
}
