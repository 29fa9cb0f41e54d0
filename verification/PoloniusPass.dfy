/** The pass as it runs: a walk that updates points, live loans and facts in
    place, then the solver. */
module PoloniusPass {
  import opened Hir
  import opened PoloniusSolver
  import opened PoloniusFacts

  class Collector {
    var point: nat
    var live: Live
    var facts: set<Fact>
    var loans: map<Loan, LoanInfo>
    var nextLoan: nat

    ghost function View(): Pass
      reads this
    {
      Pass(point, live, facts, loans, nextLoan)
    }

    constructor ()
      ensures View() == START
    {
      point, live, facts, loans, nextLoan := 0, map[], {}, map[], 0;
    }

    method FreshLoan(info: LoanInfo) returns (loan: Loan)
      modifies this`loans, this`nextLoan
      ensures loan == old(nextLoan) % LOANS && nextLoan == old(nextLoan) + 1 && loans == old(loans)[loan := info]
    {
      loan := nextLoan % LOANS;
      loans, nextLoan := loans[loan := info], nextLoan + 1;
    }

    method WalkExpr(e: Expr)
      modifies this
      ensures View() == Walk(e, old(View()))
      decreases e, 1
    {
      ghost var st := View();
      point := point + 1;
      match e
      case Borrow(_, _) => WalkBorrow(e, st);
      case Move(_) => WalkMove(e, st);
      case Binary(_, _) => WalkPair(e, st);
      case Assign(_, _, _, _) => WalkPair(e, st);
      case Call(_, _, _) => WalkCall(e, st);
      case MethodCall(_, _) => WalkCall(e, st);
      case If(_, _, _) => WalkIf(e, st);
      case Match(_, _) => WalkMatch(e, st);
      case _ => WalkInside(e, st);
    }

    /** What passes straight on to the part inside, or has none. */
    method WalkInside(e: Expr, ghost st: Pass)
      requires !e.Borrow? && !e.Move? && !e.Binary? && !e.Assign? && !e.Call? && !e.MethodCall? && !e.If? && !e.Match?
      requires View() == Advance(st)
      modifies this
      ensures View() == Walk(e, st)
      decreases e, 0
    {
      match e
      case Unary(_, _, r) => WalkExpr(r);
      case BlockExpr(b) => WalkTheBlock(b);
      case Tuple(xs) => WalkSeq(xs);
      case For(_, _, body) => WalkTheBlock(body);
      case While(_, body) => WalkTheBlock(body);
      case Loop(body) => WalkTheBlock(body);
      case Return(v) => if v.Some? { WalkExpr(v.value); }
      case _ =>
    }

    /** The parts of an expression, once its own point is taken; `st` is the state
        before that. */
    method WalkPair(e: Expr, ghost st: Pass)
      requires (e.Binary? || e.Assign?) && View() == Advance(st)
      modifies this
      ensures View() == Walk(e, st)
      decreases e, 0
    {
      WalkExpr(e.lhs);
      WalkExpr(e.rhs);
    }

    method WalkCall(e: Expr, ghost st: Pass)
      requires (e.Call? || e.MethodCall?) && View() == Advance(st)
      modifies this
      ensures View() == Walk(e, st)
      decreases e, 0
    {
      if e.Call? { WalkExpr(e.callee); } else { WalkExpr(e.receiver); }
      WalkSeq(e.args);
    }

    method WalkBorrow(e: Expr, ghost st: Pass)
      requires e.Borrow? && View() == Advance(st)
      modifies this
      ensures View() == Walk(e, st)
      decreases e, 0
    {
      var p := point;
      var root := Root(e.inner);
      WalkExpr(e.inner);
      if root.Some? {
        var loan := FreshLoan(LoanInfo(if e.mutable then Mut else Shared, root.value));
        facts := facts + {BorrowAt(loan, p)};
        live := live[root.value := Loans(live, root.value) + [loan]];
      }
    }

    method WalkMove(e: Expr, ghost st: Pass)
      requires e.Move? && View() == Advance(st)
      modifies this
      ensures View() == Walk(e, st)
      decreases e, 0
    {
      var p := point;
      var root := Root(e.inner);
      WalkExpr(e.inner);
      if root.Some? {
        var killed := Loans(live, root.value);
        ghost var before := facts;
        live := live - {root.value};
        for i := 0 to |killed|
          invariant facts == before + set l | l in killed[..i] :: LoanInvalidated(l, p)
          invariant point == Walk(e.inner, old(View())).point && live == Walk(e.inner, old(View())).live - {root.value}
          invariant loans == Walk(e.inner, old(View())).loans && nextLoan == Walk(e.inner, old(View())).nextLoan
        {
          assert killed[..i + 1] == killed[..i] + [killed[i]];
          facts := facts + {LoanInvalidated(killed[i], p)};
        }
        assert killed[..|killed|] == killed;
      }
    }

    method WalkSeq(es: seq<Expr>)
      modifies this
      ensures View() == WalkAll(es, old(View()))
      decreases es, 0
    {
      var i := 0;
      while i < |es|
        invariant 0 <= i <= |es| && WalkAll(es[i..], View()) == WalkAll(es, old(View()))
      {
        assert es[i..][0] == es[i] && es[i..][1..] == es[i + 1..];
        WalkExpr(es[i]);
        i := i + 1;
      }
    }

    method WalkIf(e: Expr, ghost st: Pass)
      requires e.If? && View() == Advance(st)
      modifies this
      ensures View() == Walk(e, st)
      decreases e, 0
    {
      WalkExpr(e.cond);
      var snap := live;
      WalkTheBlock(e.thn);
      var afterThen := live;
      live := snap;
      if e.els.Some? { WalkExpr(e.els.value); }
      live := MergeLive(live, afterThen);
    }

    method WalkMatch(e: Expr, ghost st: Pass)
      requires e.Match? && View() == Advance(st)
      modifies this
      ensures View() == Walk(e, st)
      decreases e, 0
    {
      WalkExpr(e.scrutinee);
      ghost var st1 := View();
      var snap := live;
      var joined: Live := map[];
      var i := 0;
      while i < |e.arms|
        invariant 0 <= i <= |e.arms|
        invariant WalkArms(e.arms[i..], snap, joined, View()) == WalkArms(e.arms, snap, map[], st1)
      {
        assert e.arms[i..][0] == e.arms[i] && e.arms[i..][1..] == e.arms[i + 1..];
        live := snap;
        WalkOneArm(e.arms[i]);
        joined := MergeLive(joined, live);
        i := i + 1;
      }
      live := joined;
    }

    method WalkOneArm(arm: Arm)
      modifies this
      ensures View() == WalkArm(arm, old(View()))
      decreases arm, 0
    {
      WalkExpr(arm.body);
    }

    method WalkTheBlock(b: Block)
      modifies this
      ensures View() == WalkBlock(b, old(View()))
      decreases b, 0
    {
      var i := 0;
      while i < |b.stmts|
        invariant 0 <= i <= |b.stmts| && WalkStmts(b.stmts[i..], View()) == WalkStmts(b.stmts, old(View()))
      {
        assert b.stmts[i..][0] == b.stmts[i] && b.stmts[i..][1..] == b.stmts[i + 1..];
        WalkOneStmt(b.stmts[i]);
        i := i + 1;
      }
      if b.tail.Some? { WalkExpr(b.tail.value); }
    }

    method WalkOneStmt(s: Stmt)
      modifies this
      ensures View() == WalkStmt(s, old(View()))
      decreases s, 0
    {
      match s
      case Let(_, init, _) => if init.Some? { WalkExpr(init.value); }
      case ExprStmt(e) => WalkExpr(e);
    }
  }

  /** The join loop: each entry of `b` is appended to the entry of `a`. */
  method MergeLive(a: Live, b: Live) returns (out: Live)
    ensures out == JoinLive(a, b)
  {
    out := a;
    var rest := b.Keys;
    while rest != {}
      invariant rest <= b.Keys && out.Keys == a.Keys + (b.Keys - rest)
      invariant forall k :: k in out ==> out[k] == Loans(a, k) + (if k in rest then [] else Loans(b, k))
      decreases rest
    {
      var k :| k in rest;
      out := out[k := Loans(a, k) + b[k]];
      rest := rest - {k};
    }
    assert out == JoinLive(a, b);
  }

  /** `run_polonius_pass` on one body: the reported errors are exactly the
      invalidations recorded by the walk. */
  method Check(body: Block) returns (errors: set<(Loan, Point)>)
    ensures forall l: Loan, p: Point :: (l, p) in errors <==> LoanInvalidated(l, p) in WalkBlock(body, START).facts
  {
    var c := new Collector();
    c.WalkTheBlock(body);
    var solver := new Solver(c.facts, c.loans);
    solver.Solve();
    errors := set f | f in solver.facts && f.Error? :: (f.loan, f.point);
    ReportIsExact(body, solver.facts);
    forall l: Loan, p: Point | Error(l, p) in solver.facts ensures (l, p) in errors
    {
      assert Error(l, p) in solver.facts && Error(l, p).Error?;
    }
  }
}
