/** What the walk keeps on every body: loops, lambdas and shadowing included. */
module FlowInvariant {
  import opened Wrappers
  import opened Hir
  import opened Places
  import opened Flow

  ghost predicate Rooted(ledger: Ledger, locals: Locals) {
    forall r :: r in ledger ==> r.place.root in locals
  }

  /** Every bound local belongs to a frame. */
  ghost predicate Framing(scopes: seq<seq<string>>, locals: Locals) {
    forall x :: x in locals ==> InSomeFrame(scopes, x)
  }

  ghost predicate InSomeFrame(scopes: seq<seq<string>>, x: string) {
    exists d :: 0 <= d < |scopes| && x in scopes[d]
  }

  /** The walker-wide invariant. */
  ghost predicate WellScoped(cx: Cx) {
    cx.scopes != [] && Rooted(cx.ledger, cx.locals) && Framing(cx.scopes, cx.locals)
  }

  /** After a scope exit no record is rooted at, or held by, a departing name. */
  lemma PopClears(cx: Cx)
    requires cx.scopes != []
    ensures
      var names := NameSet(cx.scopes[|cx.scopes| - 1]);
      && (forall r :: r in Pop(cx).ledger ==> r.place.root !in names && !HeldBy(r, names))
      && (forall x :: x in Pop(cx).locals ==> x !in names)
  {
  }

  lemma InnerFrame(scopes: seq<seq<string>>, x: string, d: nat)
    requires d < |scopes| && x in scopes[d]
    ensures d == |scopes| - 1 || InSomeFrame(scopes[..|scopes| - 1], x)
    ensures d == |scopes| - 1 ==> x in NameSet(scopes[|scopes| - 1])
  {
    if d < |scopes| - 1 { assert x in scopes[..|scopes| - 1][d]; }
  }

  lemma PopScoped(cx: Cx)
    requires WellScoped(cx) && |cx.scopes| > 1
    ensures WellScoped(Pop(cx))
  {
    var n := |cx.scopes| - 1;
    var cx1 := Pop(cx);
    forall x | x in cx1.locals ensures InSomeFrame(cx1.scopes, x)
    {
      assert x in cx.locals;
      var d :| 0 <= d < |cx.scopes| && x in cx.scopes[d];
      InnerFrame(cx.scopes, x, d);
    }
  }

  lemma PushScoped(cx: Cx)
    requires WellScoped(cx)
    ensures WellScoped(Push(cx))
  {
    forall x | x in cx.locals ensures InSomeFrame(Push(cx).scopes, x)
    {
      var d :| 0 <= d < |cx.scopes| && x in cx.scopes[d];
      assert x in Push(cx).scopes[d];
    }
  }

  lemma BindScoped(cx: Cx, name: string, local: Local)
    requires WellScoped(cx)
    ensures WellScoped(Bind(cx, name, local))
  {
    var cx1 := Bind(cx, name, local);
    var n := |cx.scopes| - 1;
    forall x | x in cx1.locals ensures InSomeFrame(cx1.scopes, x)
    {
      if x == name {
        assert x in cx1.scopes[n];
      } else {
        var d :| 0 <= d < |cx.scopes| && x in cx.scopes[d];
        assert x in cx1.scopes[d];
      }
    }
  }

  lemma {:induction false} BindAllScoped(cx: Cx, bs: seq<Binding>, mutable: bool)
    requires WellScoped(cx)
    ensures WellScoped(BindAll(cx, bs, mutable)) && WellScoped(BindUninit(cx, bs, mutable))
    decreases |bs|
  {
    if bs != [] {
      var owned := Local(Owned, mutable, bs[0].copy, bs[0].reference);
      var unset := Local(Uninit, mutable, true, false);
      BindScoped(cx, bs[0].name, owned);
      BindScoped(cx, bs[0].name, unset);
      BindAllScoped(Bind(cx, bs[0].name, owned), bs[1..], mutable);
      BindAllScoped(Bind(cx, bs[0].name, unset), bs[1..], mutable);
    }
  }

  lemma DecayScoped(cx: Cx, x: string)
    requires WellScoped(cx)
    ensures WellScoped(DecayAfterUse(cx, x))
  {
  }

  lemma BorrowScoped(cx: Cx, place: Place, kind: BorrowKind)
    requires WellScoped(cx) && place.root in cx.locals
    ensures WellScoped(TryBorrow(cx, place, kind))
  {
  }

  /** An event that takes no borrow. */
  lemma EventScoped(cx: Cx, cx1: Cx)
    requires WellScoped(cx) && cx1.scopes == cx.scopes && cx1.ledger == cx.ledger && cx1.locals.Keys == cx.locals.Keys
    ensures WellScoped(cx1)
  {
  }

  lemma MoveEventScoped(cx: Cx, x: string)
    requires WellScoped(cx) && x in cx.locals
    ensures WellScoped(DoMove(cx, x))
  {
    assert DoMove(cx, x).locals.Keys == cx.locals.Keys && DoMove(cx, x).ledger == cx.ledger;
    EventScoped(cx, DoMove(cx, x));
  }

  lemma LendScoped(cx: Cx, x: string, kind: BorrowKind)
    requires WellScoped(cx) && x in cx.locals
    ensures WellScoped(DoBorrow(cx, x, kind))
  {
    if cx.locals[x].reference { EventScoped(cx, DoUse(cx, x)); } else { BorrowScoped(cx, Place(x, []), kind); }
  }

  lemma TouchScoped(cx: Cx, x: string, pos: Position)
    requires WellScoped(cx) && x in cx.locals
    ensures WellScoped(Touch(cx, x, pos)) && WellScoped(TouchPart(cx, x, pos))
  {
    MoveEventScoped(cx, x);
    EventScoped(cx, DoUse(cx, x));
    match pos
    case Use =>
    case Moving =>
    case ForShared => LendScoped(cx, x, Shared);
    case ForMut => LendScoped(cx, x, Mut);
    case Target => EventScoped(cx, DoAssign(cx, x));
  }

  lemma PathScoped(cx: Cx, segs: seq<string>, pos: Position)
    requires WellScoped(cx)
    ensures WellScoped(WalkPath(cx, segs, pos))
  {
    if segs != [] {
      var cx1 := Flow.Advance(cx);
      if segs[0] in cx1.locals { TouchScoped(cx1, segs[0], pos); }
      var cx2 := if segs[0] !in cx1.locals then cx1
                 else if |segs| == 1 then Touch(cx1, segs[0], pos) else TouchPart(cx1, segs[0], pos);
      DecayScoped(cx2, segs[0]);
    }
  }

  lemma {:induction false} PointsScoped(e: Expr, cx: Cx)
    requires WellScoped(cx)
    ensures WellScoped(PointsOnly(e, cx))
    decreases e
  {
    match e
    case Path(segs) => if segs != [] { DecayScoped(Flow.Advance(cx), segs[0]); }
    case Field(r, _) => PointsScoped(r, cx);
    case Unary(_, _, r) => PointsScoped(r, cx);
    case Index(r, i) => PointsScoped(r, cx); PointsScoped(i, PointsOnly(r, cx));
    case _ =>
  }

  lemma JoinScoped(a: Cx, b: Cx)
    requires WellScoped(a) && WellScoped(b) && a.scopes == b.scopes
    ensures WellScoped(JoinInto(a, b))
  {
  }

  lemma RestoreScoped(cx: Cx, from: Cx)
    requires WellScoped(from) && cx.scopes == from.scopes
    ensures WellScoped(cx.(locals := from.locals, ledger := from.ledger))
  {
  }

  /** Every step of the walk keeps the invariant, on every body. */
  lemma {:induction false} WalkScoped(e: Expr, pos: Position, cx: Cx)
    requires WellScoped(cx)
    ensures WellScoped(Walk(e, pos, cx))
    decreases e, 1, 0
  {
    match e
    case Path(segs) => PathScoped(cx, segs, pos);
    case Literal =>
    case BlockExpr(b) => BlockScoped(b, cx);
    case Tuple(xs) => AllScoped(xs, cx);
    case Binary(_, _) => TwoScoped(e, pos, cx);
    case Assign(_, _, _, _) => AssignScoped(e, pos, cx);
    case Unary(_, _, _) => UnaryScoped(e, pos, cx);
    case Borrow(_, _) => BorrowExprScoped(e, pos, cx);
    case Move(_) => MoveScoped(e, pos, cx);
    case Call(_, _, _) => CallScoped(e, pos, cx);
    case MethodCall(_, _) => CallScoped(e, pos, cx);
    case Field(r, _) => WalkScoped(r, Use, cx);
    case Index(_, _) => TwoScoped(e, pos, cx);
    case If(_, _, _) => IfScoped(e, pos, cx);
    case Match(_, _) => MatchScoped(e, pos, cx);
    case For(_, _, _) => LoopScoped(e, pos, cx);
    case While(_, _) => LoopScoped(e, pos, cx);
    case Loop(_) => LoopScoped(e, pos, cx);
    case Return(_) => ReturnScoped(e, pos, cx);
    case Lambda(_, _) => LambdaScoped(e, pos, cx);
  }

  lemma ReportScoped(cx: Cx, e: Expr)
    requires e.Unary? && WellScoped(cx)
    ensures WellScoped(DerefMove(cx, e))
  {
    EventScoped(cx, DerefMove(cx, e));
  }

  lemma {:induction false} UnaryScoped(e: Expr, pos: Position, cx: Cx)
    requires e.Unary? && WellScoped(cx)
    ensures WellScoped(Walk(e, pos, cx))
    decreases e, 0, 0
  {
    ReportScoped(cx, e);
    WalkScoped(e.operand, Use, if pos.Use? then DerefMove(cx, e) else cx);
  }

  lemma {:induction false} ReturnScoped(e: Expr, pos: Position, cx: Cx)
    requires e.Return? && WellScoped(cx)
    ensures WellScoped(Walk(e, pos, cx))
    decreases e, 0, 0
  {
    if e.value.Some? { WalkScoped(e.value.value, Moving, cx); }
  }

  lemma LambdaScoped(e: Expr, pos: Position, cx: Cx)
    requires e.Lambda? && WellScoped(cx)
    ensures WellScoped(Walk(e, pos, cx))
  {
    RestoreScoped(WalkLambda(e, cx), cx);
  }

  lemma {:induction false} TwoScoped(e: Expr, pos: Position, cx: Cx)
    requires (e.Binary? || e.Index?) && WellScoped(cx)
    ensures WellScoped(Walk(e, pos, cx))
    decreases e, 0, 0
  {
    var a, b := if e.Binary? then e.lhs else e.receiver, if e.Binary? then e.rhs else e.idx;
    WalkScoped(a, Use, cx);
    WalkScoped(b, Use, Walk(a, Use, cx));
  }

  lemma {:induction false} CallScoped(e: Expr, pos: Position, cx: Cx)
    requires (e.Call? || e.MethodCall?) && WellScoped(cx)
    ensures WellScoped(Walk(e, pos, cx))
    decreases e, 0, 0
  {
    if e.Call? {
      WalkScoped(e.callee, Use, cx);
      ArgsScoped(e.args, e.params, Walk(e.callee, Use, cx));
    } else {
      WalkScoped(e.receiver, ForShared, cx);
      AllScoped(e.args, Walk(e.receiver, ForShared, cx));
    }
  }

  lemma {:induction false} AssignScoped(e: Expr, pos: Position, cx: Cx)
    requires e.Assign? && WellScoped(cx)
    ensures WellScoped(Walk(e, pos, cx))
    decreases e, 0, 0
  {
    var cx1 := Walk(e.lhs, Target, cx);
    WalkScoped(e.lhs, Target, cx);
    WalkScoped(e.rhs, Use, cx1);
    if e.lhs.Path? && |e.lhs.segs| == 1 { WalkScoped(e.rhs, Use, cx1.(pending := Some(e.lhs.segs[0]))); }
  }

  lemma {:induction false} BorrowExprScoped(e: Expr, pos: Position, cx: Cx)
    requires e.Borrow? && WellScoped(cx)
    ensures WellScoped(Walk(e, pos, cx))
    decreases e, 0, 0
  {
    PlaceIsTruncated(e.inner, cx.locals.Keys);
    match PlaceOf(e.inner, cx.locals.Keys)
    case Some(p) =>
      var kind := if e.mutable then Mut else Shared;
      BorrowScoped(cx, p, kind);
      PointsScoped(e.inner, TryBorrow(cx, p, kind));
    case None => WalkScoped(e.inner, if e.mutable then ForMut else ForShared, cx);
  }

  lemma {:induction false} MoveScoped(e: Expr, pos: Position, cx: Cx)
    requires e.Move? && WellScoped(cx)
    ensures WellScoped(Walk(e, pos, cx))
    decreases e, 0, 0
  {
    if e.inner.Unary? && e.inner.deref {
      ReportScoped(cx, e.inner);
      WalkScoped(e.inner.operand, Use, DerefMove(cx, e.inner));
    } else { WalkScoped(e.inner, Moving, cx); }
  }

  lemma {:induction false} IfScoped(e: Expr, pos: Position, cx: Cx)
    requires e.If? && WellScoped(cx)
    ensures WellScoped(Walk(e, pos, cx))
    decreases e, 0, 1
  {
    WalkScoped(e.cond, Use, cx);
    BranchesScoped(e, Walk(e.cond, Use, cx));
    assert Walk(e, pos, cx) == WalkIf(e, cx);
  }

  lemma {:induction false} BranchesScoped(e: Expr, cx: Cx)
    requires e.If? && WellScoped(cx)
    ensures WellScoped(WalkBranches(e, cx))
    decreases e, 0, 0
  {
    var cx1 := WalkBlock(e.thn, cx);
    BlockScoped(e.thn, cx);
    RestoreScoped(cx1, cx);
    var cx2 := Restart(cx1, cx);
    if e.els.Some? { WalkScoped(e.els.value, Use, cx2); }
    JoinScoped(if e.els.None? then cx2 else Walk(e.els.value, Use, cx2), cx1);
  }

  lemma {:induction false} MatchScoped(e: Expr, pos: Position, cx: Cx)
    requires e.Match? && WellScoped(cx)
    ensures WellScoped(Walk(e, pos, cx))
    decreases e, 0, 0
  {
    var cx1 := Walk(e.scrutinee, Use, cx);
    WalkScoped(e.scrutinee, Use, cx);
    ArmsScoped(e.arms, cx1, true, cx1);
  }

  lemma {:induction false} LoopScoped(e: Expr, pos: Position, cx: Cx)
    requires (e.For? || e.While? || e.Loop?) && WellScoped(cx)
    ensures WellScoped(Walk(e, pos, cx))
    decreases e, 0, 0
  {
    var cx1 := if e.For? then Walk(e.iter, Use, cx) else if e.While? then Walk(e.cond, Use, cx) else cx;
    if e.For? { WalkScoped(e.iter, Use, cx); }
    if e.While? { WalkScoped(e.cond, Use, cx); }
    FixScoped(if e.For? then Some(e.pat) else None, e.body, cx1, |cx1.ledger|, 16, cx1);
  }

  lemma {:induction false} AllScoped(es: seq<Expr>, cx: Cx)
    requires WellScoped(cx)
    ensures WellScoped(WalkAll(es, cx))
    decreases es, 1, 0
  {
    if es != [] { WalkScoped(es[0], Use, cx); AllScoped(es[1..], Walk(es[0], Use, cx)); }
  }

  lemma {:induction false} ArgsScoped(args: seq<Expr>, params: seq<Passing>, cx: Cx)
    requires WellScoped(cx)
    ensures WellScoped(WalkArgs(args, params, cx))
    decreases args, 1, 0
  {
    if args != [] {
      WalkScoped(args[0], PositionOf(params), cx);
      ArgsScoped(args[1..], if params == [] then [] else params[1..], Walk(args[0], PositionOf(params), cx));
    }
  }

  lemma {:induction false} ArmScoped(arm: Arm, cx: Cx)
    requires WellScoped(cx)
    ensures WellScoped(WalkArm(arm, cx))
    decreases arm, 1, 0
  {
    PushScoped(cx);
    BindAllScoped(Push(cx), Bindings(arm.pat), false);
    BindFrames(Push(cx), Bindings(arm.pat), false);
    var cx1 := BindAll(Push(cx), Bindings(arm.pat), false);
    if arm.guard.Some? { WalkScoped(arm.guard.value, Use, cx1); }
    var cx2 := if arm.guard.None? then cx1 else Walk(arm.guard.value, Use, cx1);
    WalkScoped(arm.body, Use, cx2);
    PopScoped(Walk(arm.body, Use, cx2));
  }

  lemma {:induction false} ArmsScoped(arms: seq<Arm>, base: Cx, first: bool, cx: Cx)
    requires WellScoped(base) && WellScoped(cx) && base.scopes == cx.scopes
    ensures WellScoped(WalkArms(arms, base, first, cx))
    decreases arms, 1, 0
  {
    if arms != [] {
      RestoreScoped(cx, base);
      var cx1 := WalkArm(arms[0], Restart(cx, base));
      ArmScoped(arms[0], Restart(cx, base));
      JoinScoped(cx, cx1);
      RestoreScoped(cx1, JoinInto(cx, cx1));
      ArmsScoped(arms[1..], base, false, Merge(first, cx, cx1));
    }
  }

  lemma {:induction false} OnceScoped(pat: Option<Pattern>, body: Block, cx: Cx)
    requires WellScoped(cx)
    ensures WellScoped(LoopOnce(pat, body, cx))
    decreases body, 1, 0
  {
    if pat.None? { BlockScoped(body, cx); } else { ScopeScoped(Bindings(pat.value), body, cx); }
  }

  lemma {:induction false} ScopeScoped(bs: seq<Binding>, body: Block, cx: Cx)
    requires WellScoped(cx)
    ensures WellScoped(WalkScope(bs, body, cx))
    decreases body, 0, 1
  {
    PushScoped(cx);
    BindAllScoped(Push(cx), bs, false);
    BindFrames(Push(cx), bs, false);
    BlockScoped(body, BindAll(Push(cx), bs, false));
    PopRestores(cx, WalkBlock(body, BindAll(Push(cx), bs, false)));
    PopScoped(WalkBlock(body, BindAll(Push(cx), bs, false)));
  }

  lemma {:induction false} FixScoped(pat: Option<Pattern>, body: Block, base: Cx, prev: nat, left: nat, cx: Cx)
    requires WellScoped(base) && WellScoped(cx) && base.scopes == cx.scopes
    ensures WellScoped(LoopFix(pat, body, base.locals, base.ledger, prev, left, cx))
    decreases body, 2, left
  {
    var cx1 := LoopOnce(pat, body, cx);
    OnceScoped(pat, body, cx);
    JoinScoped(base, cx1);
    RestoreScoped(cx1, JoinInto(base, cx1));
    var cx2 := cx1.(locals := JoinLocals(base.locals, cx1.locals), ledger := JoinLedgers(base.ledger, cx1.ledger));
    if left > 0 && |cx2.ledger| != prev { FixScoped(pat, body, base, |cx2.ledger|, left - 1, cx2); }
  }

  lemma {:induction false} BlockScoped(b: Block, cx: Cx)
    requires WellScoped(cx)
    ensures WellScoped(WalkBlock(b, cx))
    decreases b, 0, 0
  {
    PushScoped(cx);
    var cx1 := WalkStmts(b.stmts, Push(cx));
    StmtsScoped(b.stmts, Push(cx));
    if b.tail.Some? { WalkScoped(b.tail.value, Use, cx1); }
    PopScoped(if b.tail.None? then cx1 else Walk(b.tail.value, Use, cx1));
  }

  lemma {:induction false} StmtsScoped(ss: seq<Stmt>, cx: Cx)
    requires WellScoped(cx)
    ensures WellScoped(WalkStmts(ss, cx))
    decreases ss, 1, 0
  {
    if ss != [] { StmtScoped(ss[0], cx); StmtsScoped(ss[1..], WalkStmt(ss[0], cx)); }
  }

  lemma {:induction false} StmtScoped(s: Stmt, cx: Cx)
    requires WellScoped(cx)
    ensures WellScoped(WalkStmt(s, cx))
    decreases s, 1, 0
  {
    match s
    case Let(pat, init, mutable) =>
      if init.None? {
        BindAllScoped(cx, Bindings(pat), mutable);
      } else {
        WalkScoped(init.value, Use, cx.(pending := SingleName(pat)));
        var cx1 := Walk(init.value, Use, cx.(pending := SingleName(pat))).(pending := cx.pending);
        BindAllScoped(cx1, Bindings(pat), mutable);
      }
    case ExprStmt(e) => WalkScoped(e, Use, cx);
  }
}
