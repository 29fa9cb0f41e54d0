/** Every path read of a whole body: where the walker stands when it gets there. */
module FlowTrace {
  import opened Wrappers
  import opened Hir
  import opened Nll
  import opened Flow
  import opened FlowLockstep
  import opened FlowTheorems

  /** The walker's state when it comes to a path that begins with `name`. */
  datatype Visit = Visit(cx: Cx, name: string)

  /** One visit for each of these reads, in order, at consecutive points. */
  ghost predicate Stamped(vs: seq<Visit>, names: seq<string>, point: nat, lastUse: map<string, nat>) {
    && |vs| == |names|
    && forall i :: 0 <= i < |vs| ==> vs[i].name == names[i] && vs[i].cx.point == point + i && vs[i].cx.lastUse == lastUse
  }

  lemma StampedJoin(a: seq<Visit>, xs: seq<string>, b: seq<Visit>, ys: seq<string>, point: nat, lastUse: map<string, nat>)
    requires Stamped(a, xs, point, lastUse) && Stamped(b, ys, point + |xs|, lastUse)
    ensures Stamped(a + b, xs + ys, point, lastUse)
  {
  }

  // ----- the visits of the walk, in the order in which it makes them -----

  ghost function Trace(e: Expr, pos: Position, cx: Cx): seq<Visit>
    decreases e, 1
  {
    match e
    case Path(segs) => if segs == [] then [] else [Visit(cx, segs[0])]
    case BlockExpr(b) => TraceBlock(b, cx)
    case Tuple(xs) => TraceAll(xs, cx)
    case Binary(l, r) => Trace(l, Use, cx) + Trace(r, Use, Walk(l, Use, cx))
    case Assign(_, _, _, _) => TraceAssign(e, cx)
    case Unary(_, _, r) => Trace(r, Use, if pos.Use? then DerefMove(cx, e) else cx)
    case Borrow(_, _) => TraceBorrow(e, cx)
    case Move(_) => TraceMove(e, cx)
    case Call(c, params, args) => Trace(c, Use, cx) + TraceArgs(args, params, Walk(c, Use, cx))
    case MethodCall(r, args) => Trace(r, ForShared, cx) + TraceAll(args, Walk(r, ForShared, cx))
    case Field(r, _) => Trace(r, Use, cx)
    case Index(r, i) => Trace(r, Use, cx) + Trace(i, Use, Walk(r, Use, cx))
    case If(c, _, _) => Trace(c, Use, cx) + TraceBranches(e, Walk(c, Use, cx))
    case Match(s, arms) => var cx1 := Walk(s, Use, cx); Trace(s, Use, cx) + TraceArms(arms, cx1, true, cx1)
    case Return(v) => if v.None? then [] else Trace(v.value, Moving, cx)
    case Lambda(inputs, body) => TraceBlock(body, BindAll(Push(cx), UnitBindings(inputs), false))
    case _ => []
  }

  ghost function TraceAssign(e: Expr, cx: Cx): seq<Visit>
    requires e.Assign?
    decreases e, 0
  {
    var cx1 := Walk(e.lhs, Target, cx);
    var named := !e.compound && e.lhs.Path? && |e.lhs.segs| == 1;
    Trace(e.lhs, Target, cx) + Trace(e.rhs, Use, if named then cx1.(pending := Some(e.lhs.segs[0])) else cx1)
  }

  ghost function TraceBorrow(e: Expr, cx: Cx): seq<Visit>
    requires e.Borrow?
    decreases e, 0
  {
    match PlaceOf(e.inner, cx.locals.Keys)
    case Some(p) => TracePoints(e.inner, TryBorrow(cx, p, if e.mutable then Mut else Shared))
    case None => Trace(e.inner, if e.mutable then ForMut else ForShared, cx)
  }

  ghost function TraceMove(e: Expr, cx: Cx): seq<Visit>
    requires e.Move?
    decreases e, 0
  {
    if e.inner.Unary? && e.inner.deref then Trace(e.inner.operand, Use, DerefMove(cx, e.inner)) else Trace(e.inner, Moving, cx)
  }

  ghost function TracePoints(e: Expr, cx: Cx): seq<Visit>
    decreases e
  {
    match e
    case Path(segs) => if segs == [] then [] else [Visit(cx, segs[0])]
    case Field(r, _) => TracePoints(r, cx)
    case Unary(_, _, r) => TracePoints(r, cx)
    case Index(r, i) => TracePoints(r, cx) + TracePoints(i, PointsOnly(r, cx))
    case _ => []
  }

  ghost function TraceBranches(e: Expr, cx: Cx): seq<Visit>
    requires e.If?
    decreases e, 0
  {
    TraceBlock(e.thn, cx) + (if e.els.None? then [] else Trace(e.els.value, Use, Restart(WalkBlock(e.thn, cx), cx)))
  }

  ghost function TraceAll(es: seq<Expr>, cx: Cx): seq<Visit>
    decreases es
  {
    if es == [] then [] else Trace(es[0], Use, cx) + TraceAll(es[1..], Walk(es[0], Use, cx))
  }

  ghost function TraceArgs(args: seq<Expr>, params: seq<Passing>, cx: Cx): seq<Visit>
    decreases args
  {
    if args == [] then []
    else
      var pos := PositionOf(params);
      Trace(args[0], pos, cx) + TraceArgs(args[1..], if params == [] then [] else params[1..], Walk(args[0], pos, cx))
  }

  ghost function TraceArms(arms: seq<Arm>, base: Cx, first: bool, cx: Cx): seq<Visit>
    decreases arms
  {
    if arms == [] then []
    else
      var cx0 := Restart(cx, base);
      TraceArm(arms[0], cx0) + TraceArms(arms[1..], base, false, Merge(first, cx, WalkArm(arms[0], cx0)))
  }

  ghost function TraceArm(arm: Arm, cx: Cx): seq<Visit>
    decreases arm
  {
    var cx1 := BindAll(Push(cx), Bindings(arm.pat), false);
    if arm.guard.None? then Trace(arm.body, Use, cx1)
    else Trace(arm.guard.value, Use, cx1) + Trace(arm.body, Use, Walk(arm.guard.value, Use, cx1))
  }

  ghost function TraceBlock(b: Block, cx: Cx): seq<Visit>
    decreases b
  {
    TraceStmts(b.stmts, Push(cx)) + (if b.tail.None? then [] else Trace(b.tail.value, Use, WalkStmts(b.stmts, Push(cx))))
  }

  ghost function TraceStmts(ss: seq<Stmt>, cx: Cx): seq<Visit>
    decreases ss
  {
    if ss == [] then [] else TraceStmt(ss[0], cx) + TraceStmts(ss[1..], WalkStmt(ss[0], cx))
  }

  ghost function TraceStmt(s: Stmt, cx: Cx): seq<Visit>
    decreases s
  {
    match s
    case Let(pat, init, _) => if init.None? then [] else Trace(init.value, Use, cx.(pending := SingleName(pat)))
    case ExprStmt(e) => Trace(e, Use, cx)
  }

  // ----- they are stamped with the numbers of the pre-pass -----

  lemma {:induction false} ExprStamped(e: Expr, pos: Position, cx: Cx)
    requires Clean(e)
    ensures Stamped(Trace(e, pos, cx), Reads(e), cx.point, cx.lastUse)
    decreases e, 1
  {
    match e
    case Path(_) =>
    case Literal =>
    case BlockExpr(b) => BlockStamped(b, cx);
    case Tuple(xs) => AllStamped(xs, cx);
    case Binary(_, _) => TwoStamped(e, pos, cx);
    case Assign(_, _, _, _) => AssignStamped(e, cx);
    case Unary(_, _, r) => ExprStamped(r, Use, if pos.Use? then DerefMove(cx, e) else cx);
    case Borrow(_, _) => BorrowStamped(e, cx);
    case Move(_) => MoveStamped(e, cx);
    case Call(_, _, _) => CallStamped(e, pos, cx);
    case MethodCall(_, _) => CallStamped(e, pos, cx);
    case Field(r, _) => ExprStamped(r, Use, cx);
    case Index(_, _) => TwoStamped(e, pos, cx);
    case If(_, _, _) => IfStamped(e, pos, cx);
    case Match(_, _) => MatchStamped(e, pos, cx);
    case Return(v) => if v.Some? { ExprStamped(v.value, Moving, cx); }
    case Lambda(inputs, body) =>
      BindFrames(Push(cx), UnitBindings(inputs), false);
      BlockStamped(body, BindAll(Push(cx), UnitBindings(inputs), false));
  }

  lemma {:induction false} TwoStamped(e: Expr, pos: Position, cx: Cx)
    requires (e.Binary? || e.Index?) && Clean(e)
    ensures Stamped(Trace(e, pos, cx), Reads(e), cx.point, cx.lastUse)
    decreases e, 0
  {
    var l, r := if e.Binary? then e.lhs else e.receiver, if e.Binary? then e.rhs else e.idx;
    var cx1 := Walk(l, Use, cx);
    ExprStamped(l, Use, cx);
    ExprStamped(r, Use, cx1);
    StampedJoin(Trace(l, Use, cx), Reads(l), Trace(r, Use, cx1), Reads(r), cx.point, cx.lastUse);
  }

  lemma {:induction false} AssignStamped(e: Expr, cx: Cx)
    requires e.Assign? && Clean(e)
    ensures Stamped(TraceAssign(e, cx), Reads(e), cx.point, cx.lastUse)
    decreases e, 0
  {
    var cx1 := Walk(e.lhs, Target, cx);
    var cx2 := if !e.compound && e.lhs.Path? && |e.lhs.segs| == 1 then cx1.(pending := Some(e.lhs.segs[0])) else cx1;
    ExprStamped(e.lhs, Target, cx);
    ExprStamped(e.rhs, Use, cx2);
    StampedJoin(Trace(e.lhs, Target, cx), Reads(e.lhs), Trace(e.rhs, Use, cx2), Reads(e.rhs), cx.point, cx.lastUse);
  }

  lemma {:induction false} BorrowStamped(e: Expr, cx: Cx)
    requires e.Borrow? && Clean(e)
    ensures Stamped(TraceBorrow(e, cx), Reads(e), cx.point, cx.lastUse)
    decreases e, 0
  {
    PlacesAreShaped(e.inner, cx.locals.Keys);
    match PlaceOf(e.inner, cx.locals.Keys)
    case Some(p) => PointsStamped(e.inner, TryBorrow(cx, p, if e.mutable then Mut else Shared));
    case None => ExprStamped(e.inner, if e.mutable then ForMut else ForShared, cx);
  }

  lemma {:induction false} MoveStamped(e: Expr, cx: Cx)
    requires e.Move? && Clean(e)
    ensures Stamped(TraceMove(e, cx), Reads(e), cx.point, cx.lastUse)
    decreases e, 0
  {
    if e.inner.Unary? && e.inner.deref {
      assert Clean(e.inner) && Reads(e.inner) == Reads(e.inner.operand);
      ExprStamped(e.inner.operand, Use, DerefMove(cx, e.inner));
    } else {
      ExprStamped(e.inner, Moving, cx);
    }
  }

  lemma {:induction false} PointsStamped(e: Expr, cx: Cx)
    requires Visible(e)
    ensures Stamped(TracePoints(e, cx), Reads(e), cx.point, cx.lastUse)
    decreases e
  {
    match e
    case Field(r, _) => PointsStamped(r, cx);
    case Unary(_, _, r) => PointsStamped(r, cx);
    case Index(r, i) =>
      PointsStamped(r, cx);
      PointsStamped(i, PointsOnly(r, cx));
      StampedJoin(TracePoints(r, cx), Reads(r), TracePoints(i, PointsOnly(r, cx)), Reads(i), cx.point, cx.lastUse);
    case _ =>
  }

  lemma {:induction false} CallStamped(e: Expr, pos: Position, cx: Cx)
    requires (e.Call? || e.MethodCall?) && Clean(e)
    ensures Stamped(Trace(e, pos, cx), Reads(e), cx.point, cx.lastUse)
    decreases e, 0
  {
    var first, how := if e.Call? then e.callee else e.receiver, if e.Call? then Use else ForShared;
    var cx1 := Walk(first, how, cx);
    ExprStamped(first, how, cx);
    if e.Call? { ArgsStamped(e.args, e.params, cx1); } else { AllStamped(e.args, cx1); }
    var rest := if e.Call? then TraceArgs(e.args, e.params, cx1) else TraceAll(e.args, cx1);
    StampedJoin(Trace(first, how, cx), Reads(first), rest, ReadsAll(e.args), cx.point, cx.lastUse);
  }

  lemma {:induction false} AllStamped(es: seq<Expr>, cx: Cx)
    requires CleanAll(es)
    ensures Stamped(TraceAll(es, cx), ReadsAll(es), cx.point, cx.lastUse)
    decreases es
  {
    if es != [] {
      var cx1 := Walk(es[0], Use, cx);
      ExprStamped(es[0], Use, cx);
      AllStamped(es[1..], cx1);
      StampedJoin(Trace(es[0], Use, cx), Reads(es[0]), TraceAll(es[1..], cx1), ReadsAll(es[1..]), cx.point, cx.lastUse);
    }
  }

  lemma {:induction false} ArgsStamped(args: seq<Expr>, params: seq<Passing>, cx: Cx)
    requires CleanAll(args)
    ensures Stamped(TraceArgs(args, params, cx), ReadsAll(args), cx.point, cx.lastUse)
    decreases args
  {
    if args != [] {
      var pos, rest := PositionOf(params), if params == [] then [] else params[1..];
      var cx1 := Walk(args[0], pos, cx);
      ExprStamped(args[0], pos, cx);
      ArgsStamped(args[1..], rest, cx1);
      StampedJoin(Trace(args[0], pos, cx), Reads(args[0]), TraceArgs(args[1..], rest, cx1), ReadsAll(args[1..]), cx.point, cx.lastUse);
    }
  }

  lemma {:induction false} IfStamped(e: Expr, pos: Position, cx: Cx)
    requires e.If? && Clean(e)
    ensures Stamped(Trace(e, pos, cx), Reads(e), cx.point, cx.lastUse)
    decreases e, 0
  {
    var cx1 := Walk(e.cond, Use, cx);
    var cx2 := Restart(WalkBlock(e.thn, cx1), cx1);
    ExprStamped(e.cond, Use, cx);
    BlockStamped(e.thn, cx1);
    if e.els.Some? { ExprStamped(e.els.value, Use, cx2); }
    var t2, r2 := if e.els.None? then [] else Trace(e.els.value, Use, cx2), if e.els.None? then [] else Reads(e.els.value);
    StampedJoin(TraceBlock(e.thn, cx1), ReadsBlock(e.thn), t2, r2, cx1.point, cx.lastUse);
    StampedJoin(Trace(e.cond, Use, cx), Reads(e.cond), TraceBranches(e, cx1), ReadsBlock(e.thn) + r2, cx.point, cx.lastUse);
  }

  lemma {:induction false} MatchStamped(e: Expr, pos: Position, cx: Cx)
    requires e.Match? && Clean(e)
    ensures Stamped(Trace(e, pos, cx), Reads(e), cx.point, cx.lastUse)
    decreases e, 0
  {
    var cx1 := Walk(e.scrutinee, Use, cx);
    ExprStamped(e.scrutinee, Use, cx);
    ArmsStamped(e.arms, cx1, true, cx1);
    StampedJoin(Trace(e.scrutinee, Use, cx), Reads(e.scrutinee), TraceArms(e.arms, cx1, true, cx1), ReadsArms(e.arms), cx.point, cx.lastUse);
  }

  lemma {:induction false} ArmsStamped(arms: seq<Arm>, base: Cx, first: bool, cx: Cx)
    requires CleanArms(arms)
    ensures Stamped(TraceArms(arms, base, first, cx), ReadsArms(arms), cx.point, cx.lastUse)
    decreases arms
  {
    if arms != [] {
      var cx0 := Restart(cx, base);
      var cx1 := Merge(first, cx, WalkArm(arms[0], cx0));
      ArmStamped(arms[0], cx0);
      ArmsStamped(arms[1..], base, false, cx1);
      StampedJoin(TraceArm(arms[0], cx0), ReadsArm(arms[0]), TraceArms(arms[1..], base, false, cx1), ReadsArms(arms[1..]), cx.point, cx.lastUse);
    }
  }

  lemma {:induction false} ArmStamped(arm: Arm, cx: Cx)
    requires CleanArm(arm)
    ensures Stamped(TraceArm(arm, cx), ReadsArm(arm), cx.point, cx.lastUse)
    decreases arm
  {
    var cx1 := BindAll(Push(cx), Bindings(arm.pat), false);
    BindFrames(Push(cx), Bindings(arm.pat), false);
    if arm.guard.None? {
      ExprStamped(arm.body, Use, cx1);
    } else {
      var cx2 := Walk(arm.guard.value, Use, cx1);
      ExprStamped(arm.guard.value, Use, cx1);
      ExprStamped(arm.body, Use, cx2);
      StampedJoin(Trace(arm.guard.value, Use, cx1), Reads(arm.guard.value), Trace(arm.body, Use, cx2), Reads(arm.body), cx.point, cx.lastUse);
    }
  }

  lemma {:induction false} BlockStamped(b: Block, cx: Cx)
    requires CleanBlock(b)
    ensures Stamped(TraceBlock(b, cx), ReadsBlock(b), cx.point, cx.lastUse)
    decreases b
  {
    var cx1 := WalkStmts(b.stmts, Push(cx));
    StmtsStamped(b.stmts, Push(cx));
    if b.tail.Some? { ExprStamped(b.tail.value, Use, cx1); }
    var t2, r2 := if b.tail.None? then [] else Trace(b.tail.value, Use, cx1), if b.tail.None? then [] else Reads(b.tail.value);
    StampedJoin(TraceStmts(b.stmts, Push(cx)), ReadsStmts(b.stmts), t2, r2, cx.point, cx.lastUse);
  }

  lemma {:induction false} StmtsStamped(ss: seq<Stmt>, cx: Cx)
    requires CleanStmts(ss)
    ensures Stamped(TraceStmts(ss, cx), ReadsStmts(ss), cx.point, cx.lastUse)
    decreases ss
  {
    if ss != [] {
      var cx1 := WalkStmt(ss[0], cx);
      StmtStamped(ss[0], cx);
      StmtsStamped(ss[1..], cx1);
      StampedJoin(TraceStmt(ss[0], cx), ReadsStmt(ss[0]), TraceStmts(ss[1..], cx1), ReadsStmts(ss[1..]), cx.point, cx.lastUse);
    }
  }

  lemma {:induction false} StmtStamped(s: Stmt, cx: Cx)
    requires CleanStmt(s)
    ensures Stamped(TraceStmt(s, cx), ReadsStmt(s), cx.point, cx.lastUse)
    decreases s
  {
    match s
    case Let(pat, init, _) => if init.Some? { ExprStamped(init.value, Use, cx.(pending := SingleName(pat))); }
    case ExprStmt(e) => ExprStamped(e, Use, cx);
  }

  // ----- whole bodies -----

  /** At read `i` of a body the walker's point is `i`, and the read is the one that
      the pre-pass numbered so. */
  lemma {:induction false} BodyInStep(params: seq<Binding>, b: Block, i: nat)
    requires CleanBlock(b) && i < |ReadsBlock(b)|
    ensures
      var vs := TraceBlock(b, Start(params, b));
      |vs| == |ReadsBlock(b)| && vs[i].name == ReadsBlock(b)[i] && vs[i].cx.point == i && vs[i].cx.lastUse == LastUses(b)
  {
    BlockStamped(b, Start(params, b));
    BindFrames(Push(Cx(map[], [], [], LastUses(b), 0, None, [])), params, false);
  }

  /** A visit ends the records of the name it reads exactly when no later read of a
      body is of that name. */
  ghost predicate EndsWith(v: Visit, later: seq<string>) {
    var after := DecayAfterUse(Advance(v.cx), v.name);
    if v.name in later then after == Advance(v.cx)
    else forall r :: r in after.ledger <==> r in v.cx.ledger && r.borrower != Some(v.name)
  }

  /** So it is at every read of every body. */
  lemma {:induction false} EndedByLastRead(params: seq<Binding>, b: Block, i: nat)
    requires CleanBlock(b) && i < |ReadsBlock(b)|
    ensures var vs := TraceBlock(b, Start(params, b)); i < |vs| && EndsWith(vs[i], ReadsBlock(b)[i + 1..])
  {
    BodyInStep(params, b, i);
    var v := TraceBlock(b, Start(params, b))[i];
    EndedByNoLaterRead(ReadsBlock(b), v.name, v.cx);
  }
}
