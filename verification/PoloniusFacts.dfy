/** Fact collection for the Polonius pass: what it records is exact, and what it
    reports covers every path through the code it looks at. */
module PoloniusFacts {
  import opened Wrappers
  import opened Hir
  import opened PoloniusSolver

  type Live = map<string, seq<Loan>>

  datatype Pass = Pass(point: nat, live: Live, facts: set<Fact>, loans: map<Loan, LoanInfo>, nextLoan: nat)

  const START := Pass(0, map[], {}, map[], 0)

  /** The place string of a borrow or move operand, field names included. */
  function Root(e: Expr): Option<string> {
    match e
    case Path(segs) => if segs == [] then None else Some(Dotted(segs))
    case Field(r, name) =>
      (match Root(r) case None => None case Some(base) => Some(base + "." + name))
    case Unary(_, _, r) => Root(r)
    case Index(r, _) => Root(r)
    case _ => None
  }

  function Dotted(segs: seq<string>): string
    requires segs != []
  {
    if |segs| == 1 then segs[0] else segs[0] + "." + Dotted(segs[1..])
  }

  /** Place strings: names joined by dots, fields spelled like further segments, and
      dereferences and indices left out. */
  lemma RootSpelled(a: string, segs: seq<string>, name: string, e: Expr, i: Expr, deref: bool, owning: bool)
    requires segs != []
    ensures Root(Path([])) == None && Root(Path([a])) == Some(a) && Root(Path([a] + segs)) == Some(a + "." + Root(Path(segs)).value)
    ensures Root(Field(Path(segs), name)) == Some(Root(Path(segs)).value + "." + name)
    ensures Root(Unary(deref, owning, e)) == Root(e) && Root(Index(e, i)) == Root(e)
    ensures Root(Borrow(deref, e)) == None && Root(Move(e)) == None && Root(Literal) == None && Root(Tuple([e])) == None
  {
    assert ([a] + segs)[1..] == segs;
  }

  function Loans(live: Live, place: string): seq<Loan> { if place in live then live[place] else [] }

  /** `fresh_loan`; the counter is 32 bits wide. */
  function Intro(st: Pass, place: string, mutable: bool, p: Point): Pass {
    var loan: Loan := st.nextLoan % LOANS;
    Pass(st.point, st.live[place := Loans(st.live, place) + [loan]], st.facts + {BorrowAt(loan, p)},
         st.loans[loan := LoanInfo(if mutable then Mut else Shared, place)], st.nextLoan + 1)
  }

  function Invalidate(st: Pass, place: string, p: Point): Pass {
    Pass(st.point, st.live - {place},
         st.facts + (set l | l in Loans(st.live, place) :: LoanInvalidated(l, p)), st.loans, st.nextLoan)
  }

  /** Keeps the loans of both sides. */
  function JoinLive(a: Live, b: Live): Live {
    map k | k in a.Keys + b.Keys :: Loans(a, k) + Loans(b, k)
  }

  function Advance(st: Pass): Pass { st.(point := st.point + 1) }

  function Walk(e: Expr, st0: Pass): (r: Pass)
    ensures r.nextLoan >= st0.nextLoan && r.facts >= st0.facts && r.point >= st0.point
    decreases e
  {
    var st := Advance(st0);
    match e
    case Borrow(mutable, inner) =>
      var st1 := Walk(inner, st);
      (match Root(inner) case None => st1 case Some(place) => Intro(st1, place, mutable, st.point))
    case Move(inner) =>
      var st1 := Walk(inner, st);
      (match Root(inner) case None => st1 case Some(place) => Invalidate(st1, place, st.point))
    case Binary(l, r) => Walk(r, Walk(l, st))
    case Assign(_, _, l, r) => Walk(r, Walk(l, st))
    case Unary(_, _, r) => Walk(r, st)
    case Call(callee, _, args) => WalkAll(args, Walk(callee, st))
    case MethodCall(receiver, args) => WalkAll(args, Walk(receiver, st))
    case BlockExpr(b) => WalkBlock(b, st)
    case If(c, thn, els) =>
      var st1 := Walk(c, st);
      var st2 := WalkBlock(thn, st1);
      var st3 := st2.(live := st1.live);
      var st4 := if els.None? then st3 else Walk(els.value, st3);
      st4.(live := JoinLive(st4.live, st2.live))
    case Tuple(xs) => WalkAll(xs, st)
    case Match(scrutinee, arms) =>
      var st1 := Walk(scrutinee, st);
      WalkArms(arms, st1.live, map[], st1)
    case For(_, _, body) => WalkBlock(body, st)
    case While(_, body) => WalkBlock(body, st)
    case Loop(body) => WalkBlock(body, st)
    case Return(v) => if v.None? then st else Walk(v.value, st)
    case _ => st
  }

  function WalkAll(es: seq<Expr>, st: Pass): (r: Pass)
    ensures r.nextLoan >= st.nextLoan && r.facts >= st.facts && r.point >= st.point
    decreases es
  {
    if es == [] then st else WalkAll(es[1..], Walk(es[0], st))
  }

  function WalkArms(arms: seq<Arm>, snap: Live, joined: Live, st: Pass): (r: Pass)
    ensures r.nextLoan >= st.nextLoan && r.facts >= st.facts && r.point >= st.point
    decreases arms
  {
    if arms == [] then st.(live := joined)
    else
      var st1 := WalkArm(arms[0], st.(live := snap));
      WalkArms(arms[1..], snap, JoinLive(joined, st1.live), st1)
  }

  function WalkArm(arm: Arm, st: Pass): (r: Pass)
    ensures r.nextLoan >= st.nextLoan && r.facts >= st.facts && r.point >= st.point
    decreases arm
  {
    Walk(arm.body, st)
  }

  function WalkBlock(b: Block, st: Pass): (r: Pass)
    ensures r.nextLoan >= st.nextLoan && r.facts >= st.facts && r.point >= st.point
    decreases b
  {
    var st1 := WalkStmts(b.stmts, st);
    if b.tail.None? then st1 else Walk(b.tail.value, st1)
  }

  function WalkStmts(ss: seq<Stmt>, st: Pass): (r: Pass)
    ensures r.nextLoan >= st.nextLoan && r.facts >= st.facts && r.point >= st.point
    decreases ss
  {
    if ss == [] then st else WalkStmts(ss[1..], WalkStmt(ss[0], st))
  }

  function WalkStmt(s: Stmt, st: Pass): (r: Pass)
    ensures r.nextLoan >= st.nextLoan && r.facts >= st.facts && r.point >= st.point
    decreases s
  {
    match s
    case Let(_, init, _) => if init.None? then st else Walk(init.value, st)
    case ExprStmt(e) => Walk(e, st)
  }

  // ----- what is recorded -----

  ghost predicate Introduced(facts: set<Fact>, l: Loan, before: nat) {
    exists q: Point :: q < before && BorrowAt(l, q) in facts
  }

  /** Each point has one loan, each invalidation comes after its loan, the live
      loans have been introduced; and while the 32-bit counter does not wrap, each
      loan has one point. */
  ghost predicate Exact(st: Pass) {
    && (forall f :: f in st.facts ==> f.BorrowAt? || f.LoanInvalidated?)
    && (forall l: Loan, p: Point :: BorrowAt(l, p) in st.facts ==> p <= st.point)
    && (forall l: Loan, m: Loan, p: Point :: BorrowAt(l, p) in st.facts && BorrowAt(m, p) in st.facts ==> l == m)
    && (st.nextLoan <= LOANS ==> Numbered(st.facts, st.nextLoan))
    && (forall l: Loan, p: Point :: LoanInvalidated(l, p) in st.facts ==> Introduced(st.facts, l, p))
    && LiveIn(st.facts, st.point, st.live)
  }

  ghost predicate Numbered(facts: set<Fact>, next: nat) {
    && (forall l: Loan, p: Point :: BorrowAt(l, p) in facts ==> l < next)
    && (forall l: Loan, p: Point, q: Point :: BorrowAt(l, p) in facts && BorrowAt(l, q) in facts ==> p == q)
  }

  ghost predicate LiveIn(facts: set<Fact>, point: nat, live: Live) {
    forall k :: k in live ==> live[k] != [] && forall l :: l in live[k] ==> Introduced(facts, l, point + 1)
  }

  /** Facts are only added, and new loans get new points. */
  ghost predicate Grew(st: Pass, st': Pass) {
    && st.facts <= st'.facts && st.point <= st'.point && st.nextLoan <= st'.nextLoan
    && (forall l: Loan, p: Point :: BorrowAt(l, p) in st'.facts && BorrowAt(l, p) !in st.facts ==> p > st.point)
  }

  lemma LiveInGrows(facts: set<Fact>, point: nat, live: Live, facts': set<Fact>, point': nat)
    requires LiveIn(facts, point, live) && facts <= facts' && point <= point'
    ensures LiveIn(facts', point', live)
  {
    forall k, l | k in live && l in live[k] ensures Introduced(facts', l, point' + 1)
    {
      var q: Point :| q < point + 1 && BorrowAt(l, q) in facts;
      assert q < point' + 1 && BorrowAt(l, q) in facts';
    }
  }

  lemma LiveInJoins(facts: set<Fact>, point: nat, a: Live, b: Live)
    requires LiveIn(facts, point, a) && LiveIn(facts, point, b)
    ensures LiveIn(facts, point, JoinLive(a, b))
  {
    forall k, l | k in JoinLive(a, b) && l in JoinLive(a, b)[k] ensures Introduced(facts, l, point + 1)
    {
      assert l in Loans(a, k) || l in Loans(b, k);
    }
  }

  lemma ExactWithLive(st: Pass, live: Live)
    requires Exact(st) && LiveIn(st.facts, st.point, live)
    ensures Exact(st.(live := live))
  {
  }

  lemma {:induction false} IntroExact(st: Pass, st1: Pass, place: string, mutable: bool)
    requires Exact(st) && Exact(st1) && Grew(st, st1) && st.point > 0
    requires forall l: Loan, q: Point :: BorrowAt(l, q) in st.facts ==> q < st.point
    ensures Exact(Intro(st1, place, mutable, st.point)) && Grew(st.(point := st.point - 1), Intro(st1, place, mutable, st.point))
  {
    var p := st.point;
    var st2 := Intro(st1, place, mutable, p);
    var loan: Loan := st1.nextLoan % LOANS;
    assert BorrowAt(loan, p) in st2.facts;
    forall l: Loan, q: Point | LoanInvalidated(l, q) in st2.facts ensures Introduced(st2.facts, l, q)
    {
      assert LoanInvalidated(l, q) in st1.facts;
      var o: Point :| o < q && BorrowAt(l, o) in st1.facts;
      assert BorrowAt(l, o) in st2.facts;
    }
    LiveInGrows(st1.facts, st1.point, st1.live, st2.facts, st2.point);
    forall k, l | k in st2.live && l in st2.live[k] ensures Introduced(st2.facts, l, st2.point + 1)
    {
      if l == loan && k == place { assert p < st2.point + 1; }
    }
  }

  lemma InvalidateExact(st: Pass, place: string, p: Point)
    requires 0 < p <= st.point && Exact(st) && LiveIn(st.facts, p - 1, st.live)
    ensures Exact(Invalidate(st, place, p)) && Grew(st, Invalidate(st, place, p))
  {
    var st2 := Invalidate(st, place, p);
    forall l: Loan, q: Point | LoanInvalidated(l, q) in st2.facts ensures Introduced(st2.facts, l, q)
    {
      if LoanInvalidated(l, q) in st.facts {
        var o: Point :| o < q && BorrowAt(l, o) in st.facts;
        assert BorrowAt(l, o) in st2.facts;
      } else {
        assert q == p && l in st.live[place];
        var o: Point :| o < p && BorrowAt(l, o) in st.facts;
        assert BorrowAt(l, o) in st2.facts;
      }
    }
    LiveInGrows(st.facts, st.point, st.live, st2.facts, st2.point);
  }

  /** An operand with a place string is a chain in which nothing is recorded. */
  lemma {:induction false} RootedIsQuiet(e: Expr, st: Pass)
    requires Root(e).Some?
    ensures Walk(e, st) == st.(point := Walk(e, st).point) && Walk(e, st).point >= st.point
    decreases e
  {
    if e.Unary? { RootedIsQuiet(e.operand, Advance(st)); }
  }

  lemma AdvanceExact(st: Pass)
    requires Exact(st)
    ensures Exact(Advance(st)) && Grew(st, Advance(st))
  {
    LiveInGrows(st.facts, st.point, st.live, st.facts, st.point + 1);
  }

  /** Collection stays exact on every body, loops and lambdas included. */
  lemma {:induction false} WalkExact(e: Expr, st: Pass)
    requires Exact(st)
    ensures Exact(Walk(e, st)) && Grew(st, Walk(e, st))
    decreases e, 2
  {
    var st0 := Advance(st);
    AdvanceExact(st);
    match e
    case Borrow(_, _) => BorrowExact(e, st);
    case Move(_) => MoveExact(e, st);
    case Binary(l, r) => WalkExact(l, st0); WalkExact(r, Walk(l, st0));
    case Assign(_, _, l, r) => WalkExact(l, st0); WalkExact(r, Walk(l, st0));
    case Unary(_, _, r) => WalkExact(r, st0);
    case Call(_, _, _) => CallExact(e, st);
    case MethodCall(_, _) => CallExact(e, st);
    case BlockExpr(b) => BlockExact(b, st0);
    case If(_, _, _) => IfExact(e, st);
    case Tuple(xs) => AllExact(xs, st0);
    case Match(_, _) => MatchExact(e, st);
    case For(_, _, body) => BlockExact(body, st0);
    case While(_, body) => BlockExact(body, st0);
    case Loop(body) => BlockExact(body, st0);
    case Return(v) => if v.Some? { WalkExact(v.value, st0); }
    case _ =>
  }

  lemma {:induction false} MatchExact(e: Expr, st: Pass)
    requires e.Match? && Exact(st)
    ensures Exact(Walk(e, st)) && Grew(st, Walk(e, st))
    decreases e, 1
  {
    var st0 := Advance(st);
    AdvanceExact(st);
    var st1 := Walk(e.scrutinee, st0);
    WalkExact(e.scrutinee, st0);
    ArmsExact(e.arms, st1.live, map[], st1, st1);
  }

  lemma {:induction false} CallExact(e: Expr, st: Pass)
    requires (e.Call? || e.MethodCall?) && Exact(st)
    ensures Exact(Walk(e, st)) && Grew(st, Walk(e, st))
    decreases e, 1
  {
    var st0 := Advance(st);
    AdvanceExact(st);
    var first := if e.Call? then e.callee else e.receiver;
    WalkExact(first, st0);
    AllExact(e.args, Walk(first, st0));
  }

  lemma {:induction false} BorrowExact(e: Expr, st: Pass)
    requires e.Borrow? && Exact(st)
    ensures Exact(Walk(e, st)) && Grew(st, Walk(e, st))
    decreases e, 1
  {
    var st0 := Advance(st);
    AdvanceExact(st);
    WalkExact(e.inner, st0);
    if Root(e.inner).Some? {
      IntroExact(st0, Walk(e.inner, st0), Root(e.inner).value, e.mutable);
      assert st0.(point := st0.point - 1) == st;
    }
  }

  lemma {:induction false} MoveExact(e: Expr, st: Pass)
    requires e.Move? && Exact(st)
    ensures Exact(Walk(e, st)) && Grew(st, Walk(e, st))
    decreases e, 1
  {
    var st0 := Advance(st);
    AdvanceExact(st);
    WalkExact(e.inner, st0);
    if Root(e.inner).Some? {
      RootedIsQuiet(e.inner, st0);
      InvalidateExact(Walk(e.inner, st0), Root(e.inner).value, st0.point);
    }
  }

  lemma {:induction false} IfExact(e: Expr, st: Pass)
    requires e.If? && Exact(st)
    ensures Exact(Walk(e, st)) && Grew(st, Walk(e, st))
    decreases e, 1
  {
    var st0 := Advance(st);
    AdvanceExact(st);
    WalkExact(e.cond, st0);
    var st1 := Walk(e.cond, st0);
    BlockExact(e.thn, st1);
    var st2 := WalkBlock(e.thn, st1);
    LiveInGrows(st1.facts, st1.point, st1.live, st2.facts, st2.point);
    ExactWithLive(st2, st1.live);
    var st3 := st2.(live := st1.live);
    var st4 := if e.els.None? then st3 else Walk(e.els.value, st3);
    if e.els.Some? { WalkExact(e.els.value, st3); }
    LiveInGrows(st2.facts, st2.point, st2.live, st4.facts, st4.point);
    LiveInJoins(st4.facts, st4.point, st4.live, st2.live);
    ExactWithLive(st4, JoinLive(st4.live, st2.live));
  }

  lemma {:induction false} AllExact(es: seq<Expr>, st: Pass)
    requires Exact(st)
    ensures Exact(WalkAll(es, st)) && Grew(st, WalkAll(es, st))
    decreases es, 2
  {
    if es != [] {
      WalkExact(es[0], st);
      AllExact(es[1..], Walk(es[0], st));
    }
  }

  lemma {:induction false} ArmsExact(arms: seq<Arm>, snap: Live, joined: Live, st: Pass, base: Pass)
    requires Exact(st) && LiveIn(base.facts, base.point, snap) && LiveIn(st.facts, st.point, joined)
    requires base.facts <= st.facts && base.point <= st.point
    ensures Exact(WalkArms(arms, snap, joined, st)) && Grew(st, WalkArms(arms, snap, joined, st))
    decreases arms, 2
  {
    if arms == [] {
      ExactWithLive(st, joined);
    } else {
      LiveInGrows(base.facts, base.point, snap, st.facts, st.point);
      ExactWithLive(st, snap);
      ArmExact(arms[0], st.(live := snap));
      var st1 := WalkArm(arms[0], st.(live := snap));
      LiveInGrows(st.facts, st.point, joined, st1.facts, st1.point);
      LiveInJoins(st1.facts, st1.point, joined, st1.live);
      ArmsExact(arms[1..], snap, JoinLive(joined, st1.live), st1, base);
    }
  }

  lemma {:induction false} ArmExact(arm: Arm, st: Pass)
    requires Exact(st)
    ensures Exact(WalkArm(arm, st)) && Grew(st, WalkArm(arm, st))
    decreases arm, 2
  {
    WalkExact(arm.body, st);
  }

  lemma {:induction false} BlockExact(b: Block, st: Pass)
    requires Exact(st)
    ensures Exact(WalkBlock(b, st)) && Grew(st, WalkBlock(b, st))
    decreases b, 2
  {
    StmtsExact(b.stmts, st);
    if b.tail.Some? { WalkExact(b.tail.value, WalkStmts(b.stmts, st)); }
  }

  lemma {:induction false} StmtsExact(ss: seq<Stmt>, st: Pass)
    requires Exact(st)
    ensures Exact(WalkStmts(ss, st)) && Grew(st, WalkStmts(ss, st))
    decreases ss, 2
  {
    if ss != [] {
      StmtExact(ss[0], st);
      StmtsExact(ss[1..], WalkStmt(ss[0], st));
    }
  }

  lemma {:induction false} StmtExact(s: Stmt, st: Pass)
    requires Exact(st)
    ensures Exact(WalkStmt(s, st)) && Grew(st, WalkStmt(s, st))
    decreases s, 2
  {
    match s
    case Let(_, init, _) => if init.Some? { WalkExact(init.value, st); }
    case ExprStmt(e) => WalkExact(e, st);
  }

  /** On exact facts the collision rule never fires, nothing is transitive, and
      the errors of the least model are exactly the recorded invalidations. */
  lemma ErrorsAreInvalidations(st: Pass, fs: set<Fact>)
    requires Exact(st) && LeastModel(st.loans, st.facts, fs)
    ensures forall l: Loan, p: Point :: Error(l, p) in fs <==> LoanInvalidated(l, p) in st.facts
    ensures forall f :: f in fs ==> !f.Conflict? && !f.Subset?
  {
    var errors := set f | f in st.facts && f.LoanInvalidated? :: Error(f.loan, f.point);
    var model := st.facts + errors;
    forall rule, f, g | f in model && g in model ensures Fire(rule, st.loans, f, g) <= model
    {
      if rule.Invalidation? && Fire(rule, st.loans, f, g) != {} {
        assert g in st.facts && Error(g.loan, g.point) in errors;
      }
    }
    assert Closed(st.loans, model);
    forall l: Loan, p: Point | LoanInvalidated(l, p) in st.facts ensures Error(l, p) in fs
    {
      var q: Point :| q < p && BorrowAt(l, q) in st.facts;
      assert Fire(Invalidation, st.loans, BorrowAt(l, q), LoanInvalidated(l, p)) <= fs;
      assert Error(l, p) in Fire(Invalidation, st.loans, BorrowAt(l, q), LoanInvalidated(l, p));
    }
  }

  /** The whole pass over a body. */
  lemma ReportIsExact(b: Block, fs: set<Fact>)
    requires LeastModel(WalkBlock(b, START).loans, WalkBlock(b, START).facts, fs)
    ensures forall l: Loan, p: Point :: Error(l, p) in fs <==> LoanInvalidated(l, p) in WalkBlock(b, START).facts
    ensures forall f :: f in fs ==> !f.Conflict?
  {
    BlockExact(b, START);
    ErrorsAreInvalidations(WalkBlock(b, START), fs);
  }
}
