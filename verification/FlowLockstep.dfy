/** The walker's points and the pre-pass's points agree, so a named borrower keeps
    its record exactly until its last textual read. */
module FlowLockstep {
  import opened Wrappers
  import opened Hir
  import opened Nll
  import opened Flow

  // ----- bodies that do not rebind a name -----

  function Bound(p: Pattern): set<string> { set b | b in Bindings(p) :: b.name }

  predicate Avoids(e: Expr, ns: set<string>)
    decreases e
  {
    match e
    case BlockExpr(b) => AvoidsBlock(b, ns)
    case Tuple(xs) => AvoidsAll(xs, ns)
    case Binary(l, r) => Avoids(l, ns) && Avoids(r, ns)
    case Assign(_, _, l, r) => Avoids(l, ns) && Avoids(r, ns)
    case Unary(_, _, r) => Avoids(r, ns)
    case Borrow(_, inner) => Avoids(inner, ns)
    case Move(inner) => Avoids(inner, ns)
    case Call(c, _, args) => Avoids(c, ns) && AvoidsAll(args, ns)
    case MethodCall(r, args) => Avoids(r, ns) && AvoidsAll(args, ns)
    case Field(r, _) => Avoids(r, ns)
    case Index(r, i) => Avoids(r, ns) && Avoids(i, ns)
    case If(c, thn, els) => Avoids(c, ns) && AvoidsBlock(thn, ns) && (els.Some? ==> Avoids(els.value, ns))
    case Match(s, arms) => Avoids(s, ns) && AvoidsArms(arms, ns)
    case Return(v) => v.Some? ==> Avoids(v.value, ns)
    case _ => true
  }

  predicate AvoidsAll(es: seq<Expr>, ns: set<string>)
    decreases es
  {
    es == [] || (Avoids(es[0], ns) && AvoidsAll(es[1..], ns))
  }

  predicate AvoidsArms(arms: seq<Arm>, ns: set<string>)
    decreases arms
  {
    arms == [] || (AvoidsArm(arms[0], ns) && AvoidsArms(arms[1..], ns))
  }

  predicate AvoidsArm(arm: Arm, ns: set<string>)
    decreases arm
  {
    Bound(arm.pat) !! ns && (arm.guard.Some? ==> Avoids(arm.guard.value, ns)) && Avoids(arm.body, ns)
  }

  predicate AvoidsBlock(b: Block, ns: set<string>)
    decreases b
  {
    AvoidsStmts(b.stmts, ns) && (b.tail.Some? ==> Avoids(b.tail.value, ns))
  }

  predicate AvoidsStmts(ss: seq<Stmt>, ns: set<string>)
    decreases ss
  {
    ss == [] || (AvoidsStmt(ss[0], ns) && AvoidsStmts(ss[1..], ns))
  }

  predicate AvoidsStmt(s: Stmt, ns: set<string>)
    decreases s
  {
    match s
    case Let(pat, init, _) => Bound(pat) !! ns && (init.Some? ==> Avoids(init.value, ns))
    case ExprStmt(e) => Avoids(e, ns)
  }

  // ----- a record whose borrower is still read later -----

  /** The last read of the borrower is at least `n` points away. */
  ghost predicate Waits(cx: Cx, r: Loan, n: nat) {
    r in cx.ledger && r.borrower.Some? && r.borrower.value in cx.lastUse && cx.point + n <= cx.lastUse[r.borrower.value]
  }

  function Ends(r: Loan): set<string> { {r.place.root} + if r.borrower.Some? then {r.borrower.value} else {} }

  /** The innermost scope does not hold either end of the record. */
  ghost predicate Outside(cx: Cx, r: Loan) { cx.scopes != [] && NameSet(cx.scopes[|cx.scopes| - 1]) !! Ends(r) }

  lemma DecayKeeps(cx: Cx, x: string, r: Loan)
    requires Waits(cx, r, 0)
    ensures r in DecayAfterUse(cx, x).ledger
  {
  }

  lemma TouchKeeps(cx: Cx, x: string, pos: Position, r: Loan)
    requires r in cx.ledger
    ensures r in Touch(cx, x, pos).ledger && r in TouchPart(cx, x, pos).ledger
  {
  }

  lemma PathKeeps(cx: Cx, segs: seq<string>, pos: Position, r: Loan)
    requires segs != [] && Waits(cx, r, 1)
    ensures r in WalkPath(cx, segs, pos).ledger
  {
    var cx1 := Advance(cx);
    TouchKeeps(cx1, segs[0], pos, r);
    var cx2 := if segs[0] !in cx1.locals then cx1
               else if |segs| == 1 then Touch(cx1, segs[0], pos) else TouchPart(cx1, segs[0], pos);
    DecayKeeps(cx2, segs[0], r);
  }

  lemma {:induction false} PointsKeep(e: Expr, cx: Cx, r: Loan)
    requires Waits(cx, r, |Reads(e)|)
    ensures r in PointsOnly(e, cx).ledger
    decreases e
  {
    match e
    case Path(segs) => if segs != [] { DecayKeeps(Advance(cx), segs[0], r); }
    case Field(x, _) => PointsKeep(x, cx, r);
    case Unary(_, _, x) => PointsKeep(x, cx, r);
    case Index(x, i) => PointsKeep(x, cx, r); PointsKeep(i, PointsOnly(x, cx), r);
    case _ =>
  }

  lemma PopKeeps(cx: Cx, r: Loan)
    requires r in cx.ledger && r.borrower.Some? && Outside(cx, r)
    ensures r in Pop(cx).ledger
  {
    assert r.place.root in Ends(r) && r.borrower.value in Ends(r);
  }

  lemma {:induction false} BindKeeps(cx: Cx, bs: seq<Binding>, mutable: bool, r: Loan)
    requires cx.scopes != [] && (set b | b in bs :: b.name) !! Ends(r) && Outside(cx, r)
    ensures BindAll(cx, bs, mutable).ledger == BindUninit(cx, bs, mutable).ledger == cx.ledger
    ensures Outside(BindAll(cx, bs, mutable), r) && Outside(BindUninit(cx, bs, mutable), r)
    decreases |bs|
  {
    if bs != [] {
      assert bs[0].name in (set b | b in bs :: b.name);
      var a := Bind(cx, bs[0].name, Local(Owned, mutable, bs[0].copy, bs[0].reference));
      var u := Bind(cx, bs[0].name, Local(Uninit, mutable, true, false));
      BindKeeps(a, bs[1..], mutable, r);
      BindKeeps(u, bs[1..], mutable, r);
    }
  }

  // ----- the walk keeps it -----

  lemma {:induction false} WalkKeeps(e: Expr, pos: Position, cx: Cx, r: Loan)
    requires Clean(e) && Avoids(e, Ends(r)) && Waits(cx, r, |Reads(e)|)
    ensures r in Walk(e, pos, cx).ledger
    decreases e, 3
  {
    match e
    case Path(segs) => if segs != [] { PathKeeps(cx, segs, pos, r); }
    case Literal =>
    case BlockExpr(b) => BlockKeeps(b, cx, r);
    case Tuple(xs) => AllKeeps(xs, cx, r);
    case Binary(_, _) => TwoKeeps(e, pos, cx, r);
    case Assign(_, _, _, _) => AssignKeeps(e, pos, cx, r);
    case Unary(_, _, x) => WalkKeeps(x, Use, if pos.Use? then DerefMove(cx, e) else cx, r);
    case Borrow(_, _) => BorrowKeeps(e, pos, cx, r);
    case Move(_) => MoveKeeps(e, pos, cx, r);
    case Call(_, _, _) => CallKeeps(e, pos, cx, r);
    case MethodCall(_, _) => CallKeeps(e, pos, cx, r);
    case Field(x, _) => WalkKeeps(x, Use, cx, r);
    case Index(_, _) => TwoKeeps(e, pos, cx, r);
    case If(_, _, _) => IfKeeps(e, pos, cx, r);
    case Match(_, _) => MatchKeeps(e, pos, cx, r);
    case Return(v) => if v.Some? { WalkKeeps(v.value, Moving, cx, r); }
    case Lambda(_, _) =>
  }

  lemma {:induction false} TwoKeeps(e: Expr, pos: Position, cx: Cx, r: Loan)
    requires (e.Binary? || e.Index?) && Clean(e) && Avoids(e, Ends(r)) && Waits(cx, r, |Reads(e)|)
    ensures r in Walk(e, pos, cx).ledger
    decreases e, 2
  {
    var a, b := if e.Binary? then e.lhs else e.receiver, if e.Binary? then e.rhs else e.idx;
    WalkKeeps(a, Use, cx, r);
    WalkKeeps(b, Use, Walk(a, Use, cx), r);
  }

  lemma {:induction false} AssignKeeps(e: Expr, pos: Position, cx: Cx, r: Loan)
    requires e.Assign? && Clean(e) && Avoids(e, Ends(r)) && Waits(cx, r, |Reads(e)|)
    ensures r in Walk(e, pos, cx).ledger
    decreases e, 2
  {
    WalkKeeps(e.lhs, Target, cx, r);
    var cx1 := Walk(e.lhs, Target, cx);
    var cx2 := if !e.compound && e.lhs.Path? && |e.lhs.segs| == 1 then cx1.(pending := Some(e.lhs.segs[0])) else cx1;
    WalkKeeps(e.rhs, Use, cx2, r);
  }

  lemma {:induction false} BorrowKeeps(e: Expr, pos: Position, cx: Cx, r: Loan)
    requires e.Borrow? && Clean(e) && Avoids(e, Ends(r)) && Waits(cx, r, |Reads(e)|)
    ensures r in Walk(e, pos, cx).ledger
    decreases e, 2
  {
    match PlaceOf(e.inner, cx.locals.Keys)
    case Some(p) => PointsKeep(e.inner, TryBorrow(cx, p, if e.mutable then Mut else Shared), r);
    case None => WalkKeeps(e.inner, if e.mutable then ForMut else ForShared, cx, r);
  }

  lemma {:induction false} MoveKeeps(e: Expr, pos: Position, cx: Cx, r: Loan)
    requires e.Move? && Clean(e) && Avoids(e, Ends(r)) && Waits(cx, r, |Reads(e)|)
    ensures r in Walk(e, pos, cx).ledger
    decreases e, 2
  {
    if e.inner.Unary? && e.inner.deref {
      assert Clean(e.inner) && Avoids(e.inner, Ends(r)) && Reads(e.inner) == Reads(e.inner.operand);
      WalkKeeps(e.inner.operand, Use, DerefMove(cx, e.inner), r);
    } else {
      WalkKeeps(e.inner, Moving, cx, r);
    }
  }

  lemma {:induction false} CallKeeps(e: Expr, pos: Position, cx: Cx, r: Loan)
    requires (e.Call? || e.MethodCall?) && Clean(e) && Avoids(e, Ends(r)) && Waits(cx, r, |Reads(e)|)
    ensures r in Walk(e, pos, cx).ledger
    decreases e, 2
  {
    if e.Call? {
      WalkKeeps(e.callee, Use, cx, r);
      ArgsKeep(e.args, e.params, Walk(e.callee, Use, cx), r);
    } else {
      WalkKeeps(e.receiver, ForShared, cx, r);
      AllKeeps(e.args, Walk(e.receiver, ForShared, cx), r);
    }
  }

  lemma {:induction false} AllKeeps(es: seq<Expr>, cx: Cx, r: Loan)
    requires CleanAll(es) && AvoidsAll(es, Ends(r)) && Waits(cx, r, |ReadsAll(es)|)
    ensures r in WalkAll(es, cx).ledger
    decreases es, 3
  {
    if es != [] {
      WalkKeeps(es[0], Use, cx, r);
      AllKeeps(es[1..], Walk(es[0], Use, cx), r);
    }
  }

  lemma {:induction false} ArgsKeep(args: seq<Expr>, params: seq<Passing>, cx: Cx, r: Loan)
    requires CleanAll(args) && AvoidsAll(args, Ends(r)) && Waits(cx, r, |ReadsAll(args)|)
    ensures r in WalkArgs(args, params, cx).ledger
    decreases args, 3
  {
    if args != [] {
      WalkKeeps(args[0], PositionOf(params), cx, r);
      ArgsKeep(args[1..], if params == [] then [] else params[1..], Walk(args[0], PositionOf(params), cx), r);
    }
  }

  lemma {:induction false} IfKeeps(e: Expr, pos: Position, cx: Cx, r: Loan)
    requires e.If? && Clean(e) && Avoids(e, Ends(r)) && Waits(cx, r, |Reads(e)|)
    ensures r in Walk(e, pos, cx).ledger
    decreases e, 1
  {
    WalkKeeps(e.cond, Use, cx, r);
    var cx1 := Walk(e.cond, Use, cx);
    BlockKeeps(e.thn, cx1, r);
    assert r in WalkBranches(e, cx1).ledger;
    assert Walk(e, pos, cx) == WalkIf(e, cx);
  }

  lemma {:induction false} MatchKeeps(e: Expr, pos: Position, cx: Cx, r: Loan)
    requires e.Match? && Clean(e) && Avoids(e, Ends(r)) && Waits(cx, r, |Reads(e)|)
    ensures r in Walk(e, pos, cx).ledger
    decreases e, 1
  {
    WalkKeeps(e.scrutinee, Use, cx, r);
    var cx1 := Walk(e.scrutinee, Use, cx);
    ArmsKeepRecord(e.arms, cx1, true, cx1, r);
  }

  lemma {:induction false} ArmsKeepRecord(arms: seq<Arm>, base: Cx, first: bool, cx: Cx, r: Loan)
    requires CleanArms(arms) && AvoidsArms(arms, Ends(r)) && Waits(cx, r, |ReadsArms(arms)|) && r in base.ledger
    ensures r in WalkArms(arms, base, first, cx).ledger
    decreases arms, 3
  {
    if arms != [] {
      var cx1 := WalkArm(arms[0], Restart(cx, base));
      ArmKeeps(arms[0], Restart(cx, base), r);
      ArmsKeepRecord(arms[1..], base, false, Merge(first, cx, cx1), r);
    }
  }

  lemma {:induction false} ArmKeeps(arm: Arm, cx: Cx, r: Loan)
    requires CleanArm(arm) && AvoidsArm(arm, Ends(r)) && Waits(cx, r, |ReadsArm(arm)|)
    ensures r in WalkArm(arm, cx).ledger
    decreases arm, 2
  {
    var bs := Bindings(arm.pat);
    BindKeeps(Push(cx), bs, false, r);
    BindFrames(Push(cx), bs, false);
    var cx1 := BindAll(Push(cx), bs, false);
    if arm.guard.Some? { WalkKeeps(arm.guard.value, Use, cx1, r); }
    var cx2 := if arm.guard.None? then cx1 else Walk(arm.guard.value, Use, cx1);
    WalkKeeps(arm.body, Use, cx2, r);
    PopKeeps(Walk(arm.body, Use, cx2), r);
  }

  lemma {:induction false} BlockKeeps(b: Block, cx: Cx, r: Loan)
    requires CleanBlock(b) && AvoidsBlock(b, Ends(r)) && Waits(cx, r, |ReadsBlock(b)|)
    ensures r in WalkBlock(b, cx).ledger
    decreases b, 0
  {
    StmtsKeep(b.stmts, Push(cx), r);
    var cx1 := WalkStmts(b.stmts, Push(cx));
    if b.tail.Some? { WalkKeeps(b.tail.value, Use, cx1, r); }
    PopKeeps(if b.tail.None? then cx1 else Walk(b.tail.value, Use, cx1), r);
  }

  lemma {:induction false} StmtsKeep(ss: seq<Stmt>, cx: Cx, r: Loan)
    requires CleanStmts(ss) && AvoidsStmts(ss, Ends(r)) && Waits(cx, r, |ReadsStmts(ss)|) && Outside(cx, r)
    ensures r in WalkStmts(ss, cx).ledger && Outside(WalkStmts(ss, cx), r)
    decreases ss, 3
  {
    if ss != [] {
      StmtKeeps(ss[0], cx, r);
      StmtsKeep(ss[1..], WalkStmt(ss[0], cx), r);
    }
  }

  lemma {:induction false} StmtKeeps(s: Stmt, cx: Cx, r: Loan)
    requires CleanStmt(s) && AvoidsStmt(s, Ends(r)) && Waits(cx, r, |ReadsStmt(s)|) && Outside(cx, r)
    ensures r in WalkStmt(s, cx).ledger && Outside(WalkStmt(s, cx), r)
    decreases s, 2
  {
    match s
    case Let(pat, init, mutable) =>
      if init.None? {
        BindKeeps(cx, Bindings(pat), mutable, r);
      } else {
        WalkKeeps(init.value, Use, cx.(pending := SingleName(pat)), r);
        var cx1 := Walk(init.value, Use, cx.(pending := SingleName(pat))).(pending := cx.pending);
        BindKeeps(cx1, Bindings(pat), mutable, r);
      }
    case ExprStmt(e) => WalkKeeps(e, Use, cx, r);
  }

  // ----- in terms of the body's reads -----

  lemma InSuffix(names: seq<string>, k: nat, i: nat)
    requires k < |names| && i < |names|
    ensures k < i ==> names[i] in names[k + 1..]
  {
    if k < i { assert names[k + 1..][i - (k + 1)] == names[i]; }
  }

  /** A record survives every part of the body that has a read of its borrower
      still to come. `all` is the whole body's reads. */
  lemma KeptWhileReadLater(all: seq<string>, e: Expr, pos: Position, cx: Cx, r: Loan)
    requires Clean(e) && Avoids(e, Ends(r)) && r in cx.ledger && r.borrower.Some?
    requires cx.lastUse == RecordAll(map[], all, 0) && cx.point + |Reads(e)| <= |all|
    requires r.borrower.value in all[cx.point + |Reads(e)|..]
    ensures r in Walk(e, pos, cx).ledger
  {
    var b, n := r.borrower.value, cx.point + |Reads(e)|;
    LastOccurrence(all, b);
    var i :| 0 <= i < |all[n..]| && all[n..][i] == b;
    assert all[n + i] == b;
    InSuffix(all, cx.lastUse[b], n + i);
    WalkKeeps(e, pos, cx, r);
  }

  /** At a read that the walker has numbered as the pre-pass did, the records of the
      name end exactly when it is not read again. */
  lemma EndedByNoLaterRead(all: seq<string>, x: string, cx: Cx)
    requires cx.lastUse == RecordAll(map[], all, 0) && cx.point < |all| && all[cx.point] == x
    ensures
      var cx1 := DecayAfterUse(Advance(cx), x);
      if x in all[cx.point + 1..] then cx1 == Advance(cx)
      else forall r :: r in cx1.ledger <==> r in cx.ledger && r.borrower != Some(x)
  {
    var i := cx.point;
    LastOccurrence(all, x);
    var last := RecordAll(map[], all, 0)[x];
    InSuffix(all, last, i);
    InSuffix(all, i, last);
  }
}
