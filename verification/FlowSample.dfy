/** A covered body that the checker accepts: a mutable borrow that is passed to a
    call and ends, then a borrow of an element whose index is a local. */
module FlowSample {
  import opened Wrappers
  import opened Hir
  import opened Places
  import opened Nll
  import opened FlowState
  import opened FlowActs
  import opened FlowPaths
  import opened FlowFit
  import opened FlowTheorems
  import opened FlowBodies
  import opened FlowSteps
  import opened FlowReports
  import F = Flow

  function Element(x: string, i: string): Expr { Borrow(false, Index(Var(x), Var(i))) }

  /** `f(r)` */
  function Give(f: string, r: string): Expr { Call(Var(f), [ByValue], [Var(r)]) }

  /** `let q = &x[i]; q` */
  function ElementPart(x: string, i: string, q: string): seq<Stmt> { [LetRef(q, false, Element(x, i))] + ([ExprStmt(Var(q))] + []) }

  /** `let r = &mut x; f(r); let q = &x[i]; q` */
  function BorrowPart(x: string, i: string, f: string, r: string, q: string): seq<Stmt> {
    [LetRef(r, true, Lend(x, true))] + ([ExprStmt(Give(f, r))] + ElementPart(x, i, q))
  }

  /** `let i = ..; let mut x = ..; let r = &mut x; f(r); let q = &x[i]; q` */
  function Sample(x: string, i: string, f: string, r: string, q: string): seq<Stmt> {
    [LetValue(i, true, false)] + ([LetValue(x, false, true)] + BorrowPart(x, i, f, r, q))
  }

  predicate Apart(x: string, i: string, f: string, r: string, q: string) {
    x != i && x != f && x != r && x != q && i != f && i != r && i != q && f != r && f != q && r != q
  }

  lemma GiveReads(f: string, r: string)
    ensures Reads(Give(f, r)) == [f, r] && ReadsAll([Var(r)]) == [r]
  {
    assert [Var(r)][1..] == [] && Reads(Var(f)) == [f] && Reads(Var(r)) == [r];
    assert ReadsAll([Var(r)]) == Reads(Var(r)) + ReadsAll([]);
  }

  lemma ElementReads(x: string, i: string, q: string)
    ensures Reads(Index(Var(x), Var(i))) == [x, i] && ReadsStmt(LetRef(q, false, Element(x, i))) == [x, i]
  {
    assert Reads(Var(x)) == [x] && Reads(Var(i)) == [i] && Reads(Index(Var(x), Var(i))) == Reads(Var(x)) + Reads(Var(i));
    assert Reads(Element(x, i)) == Reads(Index(Var(x), Var(i)));
  }

  lemma ElementPartReads(x: string, i: string, q: string)
    ensures ReadsStmts(ElementPart(x, i, q)) == [x, i, q]
  {
    StmtReads(q, x, false);
    ElementReads(x, i, q);
    FirstReads(ExprStmt(Var(q)), []);
    FirstReads(LetRef(q, false, Element(x, i)), [ExprStmt(Var(q))] + []);
  }

  lemma BorrowPartReads(x: string, i: string, f: string, r: string, q: string)
    ensures ReadsStmts(BorrowPart(x, i, f, r, q)) == [x, f, r, x, i, q]
  {
    StmtReads(x, r, true);
    GiveReads(f, r);
    ElementPartReads(x, i, q);
    FirstReads(ExprStmt(Give(f, r)), ElementPart(x, i, q));
    FirstReads(LetRef(r, true, Lend(x, true)), [ExprStmt(Give(f, r))] + ElementPart(x, i, q));
  }

  lemma SampleReads(x: string, i: string, f: string, r: string, q: string)
    ensures ReadsBlock(Block(Sample(x, i, f, r, q), None)) == [x, f, r, x, i, q]
  {
    ValueReads(i, true, false);
    ValueReads(x, false, true);
    BorrowPartReads(x, i, f, r, q);
    FirstReads(LetValue(x, false, true), BorrowPart(x, i, f, r, q));
    FirstReads(LetValue(i, true, false), [LetValue(x, false, true)] + BorrowPart(x, i, f, r, q));
  }

  lemma SampleLast(x: string, i: string, f: string, r: string, q: string)
    requires Apart(x, i, f, r, q)
    ensures var last := LastUses(Block(Sample(x, i, f, r, q), None)); r in last && last[r] == 2 && q in last && last[q] == 5
  {
    var b := Block(Sample(x, i, f, r, q), None);
    SampleReads(x, i, f, r, q);
    LastReads(b, 2);
    LastReads(b, 5);
  }

  // ----- it is covered -----

  function SamplePlan(x: string, i: string, f: string, r: string, q: string): Plan {
    Plan(Claim(true, true, true), map[r := {Hold(x, F.Mut)}, q := {Hold(x, F.Shared)}],
         {TakeAt(x, F.Mut, 0), TakeAt(x, F.Shared, 3), EndAt({i, x, r, q}, 6)}, {}, {i}, {i},
         map[], {}, {}, 6, LastUses(Block(Sample(x, i, f, r, q), None)))
  }

  /** What the parts of the sample need of a plan. */
  ghost predicate Suits(m: Plan, x: string, i: string, f: string, r: string, q: string) {
    && Apart(x, i, f, r, q) && m.may == map[r := {Hold(x, F.Mut)}, q := {Hold(x, F.Shared)}] && m.steady == {i} && m.copies == {i}
    && m.events == {TakeAt(x, F.Mut, 0), TakeAt(x, F.Shared, 3), EndAt({i, x, r, q}, 6)} && m.guards == {} && m.clans == map[] && m.open == {} && m.derefs == {}
    && r in m.lastUse && m.lastUse[r] == 2
  }

  lemma FitFirst(m: Plan, s: Stmt, rest: seq<Stmt>, bound: set<string>, w: Where)
    requires F.CleanStmt(s) && F.CleanStmts(rest)
    requires FitStmt(m, s, bound, w) && FitStmts(m, rest, bound + StmtNames(s), On(w, |ReadsStmt(s)|))
    ensures F.CleanStmts([s] + rest) && FitStmts(m, [s] + rest, bound, w)
    ensures StmtsNames([s] + rest) == StmtNames(s) + StmtsNames(rest)
  {
    assert ([s] + rest)[0] == s && ([s] + rest)[1..] == rest;
  }

  lemma ValueFits(m: Plan, x: string, copy: bool, mutable: bool, bound: set<string>, w: Where)
    requires m.guards == {} && x !in bound && (x in m.copies ==> copy)
    ensures var s := LetValue(x, copy, mutable);
            F.CleanStmt(s) && FitStmt(m, s, bound, w) && StmtNames(s) == {x} && ReadsStmt(s) == []
  {
    NamedBinds(x, PlainTy(copy), Real(copy, false, false));
    OneFresh(m, F.BindingOf(x, PlainTy(copy), Real(copy, false, false)), bound);
  }

  lemma OneFresh(m: Plan, b: Binding, bound: set<string>)
    requires b.name !in bound && Faithful(m, b) && Suited(m, b, false)
    ensures FreshNames(m, [b], false, bound)
  {
    assert [b][1..] == [];
  }

  /** Where the borrow of a `let` stands. */
  function Bound(y: string, n: nat, w: Where): Where { Where(Some(y), {y}, w.point + n, w.point) }

  lemma RefFits(m: Plan, y: string, mutable: bool, inner: Expr, bound: set<string>, w: Where)
    requires y !in bound && y !in m.copies && y in m.may && y !in m.steady
    requires var p := F.FullPlace(inner, bound); p.Some? && FitTake(m, p.value, Kind(mutable), Bound(y, |Reads(inner)|, w))
    requires F.Visible(inner) && F.Clean(inner) && (forall z :: z in Reads(inner) ==> z !in m.may && z in bound)
    requires SteadyOperands(m, OperandNames(inner), bound) && m.guards == {}
    ensures var s := LetRef(y, mutable, Borrow(mutable, inner)); F.CleanStmt(s) && FitStmt(m, s, bound, w) && StmtNames(s) == {y}
  {
    var ty, actual, e := RefTy(mutable, PlainTy(false)), Real(!mutable, true, true), Borrow(mutable, inner);
    NamedBinds(y, ty, actual);
    OneFresh(m, F.BindingOf(y, ty, actual), bound);
    NoCarriers(m, Reads(inner), bound, Bound(y, |Reads(inner)|, w));
    assert FitBorrow(m, e, bound, Bound(y, |Reads(e)|, w));
    assert Span(w, {y}, |Reads(e)|).(pend := Some(y)) == Bound(y, |Reads(e)|, w);
  }

  lemma {:induction false} NoCarriers(m: Plan, xs: seq<string>, bound: set<string>, w: Where)
    requires forall z :: z in xs ==> z !in m.may && z in bound
    ensures FitReads(m, xs, bound, w)
    decreases |xs|
  {
    if xs != [] { NoCarriers(m, xs[1..], bound, w); }
  }

  lemma ReadFits(m: Plan, y: string, bound: set<string>, w: Where)
    requires m.guards == {} && y in bound && (y in m.may ==> forall h :: h in m.may[y] ==> Outlasts(m, y, h, Span(w, {}, 1)))
    ensures var s := ExprStmt(Var(y)); F.CleanStmt(s) && FitStmt(m, s, bound, w) && StmtNames(s) == {} && ReadsStmt(s) == [y]
  {
    assert Reads(Var(y)) == [y];
    assert FitPath(m, [y], F.Use, bound, Span(w, {}, 1));
  }

  /** A call of a function with a reference that is not read again. */
  lemma {:induction false} GiveFits(m: Plan, x: string, i: string, f: string, r: string, q: string, bound: set<string>, w: Where)
    requires Suits(m, x, i, f, r, q) && bound == {i, x, r} && w.point == 1
    ensures var s := ExprStmt(Give(f, r)); F.CleanStmt(s) && FitStmt(m, s, bound, w) && StmtNames(s) == {} && ReadsStmt(s) == [f, r]
  {
    var e, w1 := Give(f, r), Span(w, {}, 2);
    GiveReads(f, r);
    GivenTo(m, x, i, f, r, q, bound, w1);
    assert [Var(r)][0] == Var(r) && [Var(r)][1..] == [] && F.CleanAll([]) && F.CleanAll([Var(r)]);
    assert First(e) == Var(f) && Reads(Var(f)) == [f];
    OnlyArgument(m, r, bound, On(Amid(m, e, bound, w1), 1));
    assert FitPath(m, [f], F.Use, bound, w1.(carry := {}));
    assert FitCall(m, e, bound, w1);
  }

  lemma {:induction false} GivenTo(m: Plan, x: string, i: string, f: string, r: string, q: string, bound: set<string>, w: Where)
    requires Suits(m, x, i, f, r, q) && bound == {i, x, r} && w.carry == {} && w.point == 1 && w.limit == 3
    ensures var e := Give(f, r);
            Global(e, bound) && Amid(m, e, bound, w) == w.(carry := {r}) && FitRead(m, r, bound, On(Amid(m, e, bound, w), 1))
  {
    var e := Give(f, r);
    GiveReads(f, r);
    assert Reads(Var(f)) == [f] && OperandsOf(e, bound) == {r};
    assert Clans(m, {r}) == {r} && Reach(m, {r}, bound) == {r};
    var w1 := On(w.(carry := {r}), 1);
    assert Outlasts(m, r, Hold(x, F.Mut), w1);
  }

  lemma OnlyArgument(m: Plan, r: string, bound: set<string>, w: Where)
    requires m.guards == {} && r in bound && FitRead(m, r, bound, w)
    ensures FitArgs(m, [Var(r)], [ByValue], bound, w)
  {
    assert [Var(r)][1..] == [] && FitPath(m, [r], F.Use, bound, w);
  }

  lemma {:induction false} ElementPartFits(m: Plan, x: string, i: string, f: string, r: string, q: string, bound: set<string>, w: Where)
    requires Suits(m, x, i, f, r, q) && bound == {i, x, r} && w.point == 3
    ensures F.CleanStmts(ElementPart(x, i, q)) && FitStmts(m, ElementPart(x, i, q), bound, w)
    ensures StmtsNames(ElementPart(x, i, q)) == {q}
  {
    var w1 := On(w, 2);
    ElementFits(m, x, i, f, r, q, bound, w);
    assert Outlasts(m, q, Hold(x, F.Shared), Span(w1, {}, 1));
    ReadFits(m, q, bound + {q}, w1);
    FitFirst(m, ExprStmt(Var(q)), [], bound + {q}, w1);
    FitFirst(m, LetRef(q, false, Element(x, i)), [ExprStmt(Var(q))] + [], bound, w);
  }

  lemma {:induction false} ElementFits(m: Plan, x: string, i: string, f: string, r: string, q: string, bound: set<string>, w: Where)
    requires Suits(m, x, i, f, r, q) && bound == {i, x, r} && w.point == 3
    ensures var s := LetRef(q, false, Element(x, i)); F.CleanStmt(s) && FitStmt(m, s, bound, w) && StmtNames(s) == {q} && ReadsStmt(s) == [x, i]
  {
    ElementPlace(x, i, bound);
    OneOperand(x, i);
    ElementReads(x, i, q);
    assert Records(m, q, Hold(x, F.Shared), Bound(q, 2, w));
    RefFits(m, q, false, Index(Var(x), Var(i)), bound, w);
  }

  lemma {:induction false} BorrowPartFits(m: Plan, x: string, i: string, f: string, r: string, q: string, bound: set<string>, w: Where)
    requires Suits(m, x, i, f, r, q) && bound == {i, x} && w.point == 0
    ensures F.CleanStmts(BorrowPart(x, i, f, r, q)) && FitStmts(m, BorrowPart(x, i, f, r, q), bound, w)
    ensures StmtsNames(BorrowPart(x, i, f, r, q)) == {r, q}
  {
    var w1, rest := On(w, 1), ElementPart(x, i, q);
    LendFits(m, x, i, f, r, q, bound, w);
    ElementPartFits(m, x, i, f, r, q, bound + {r}, On(w1, 2));
    GiveFits(m, x, i, f, r, q, bound + {r}, w1);
    assert bound + {r} + StmtNames(ExprStmt(Give(f, r))) == bound + {r};
    FitFirst(m, ExprStmt(Give(f, r)), rest, bound + {r}, w1);
    FitFirst(m, LetRef(r, true, Lend(x, true)), [ExprStmt(Give(f, r))] + rest, bound, w);
  }

  lemma {:induction false} LendFits(m: Plan, x: string, i: string, f: string, r: string, q: string, bound: set<string>, w: Where)
    requires Suits(m, x, i, f, r, q) && bound == {i, x} && w.point == 0
    ensures var s := LetRef(r, true, Lend(x, true)); F.CleanStmt(s) && FitStmt(m, s, bound, w) && StmtNames(s) == {r} && ReadsStmt(s) == [x]
  {
    RootPlace(x, bound);
    StmtReads(x, r, true);
    assert Reads(Var(x)) == [x] && OperandNames(Var(x)) == [];
    assert Records(m, r, Hold(x, F.Mut), Bound(r, 1, w));
    RefFits(m, r, true, Var(x), bound, w);
  }

  lemma {:induction false} SampleFits(m: Plan, x: string, i: string, f: string, r: string, q: string, w: Where)
    requires Suits(m, x, i, f, r, q) && w.point == 0
    ensures F.CleanStmts(Sample(x, i, f, r, q)) && FitStmts(m, Sample(x, i, f, r, q), {}, w)
    ensures StmtsNames(Sample(x, i, f, r, q)) == {i, x, r, q}
  {
    var rest := BorrowPart(x, i, f, r, q);
    BorrowPartFits(m, x, i, f, r, q, {} + {i} + {x}, w);
    ValueFits(m, x, false, true, {} + {i}, w);
    FitFirst(m, LetValue(x, false, true), rest, {} + {i}, w);
    ValueFits(m, i, true, false, {}, w);
    FitFirst(m, LetValue(i, true, false), [LetValue(x, false, true)] + rest, {}, w);
  }

  lemma {:induction false} SampleIsCovered(x: string, i: string, f: string, r: string, q: string)
    requires Apart(x, i, f, r, q)
    ensures Covered(SamplePlan(x, i, f, r, q), [], Block(Sample(x, i, f, r, q), None))
  {
    SampleReads(x, i, f, r, q);
    SampleLast(x, i, f, r, q);
    var m, b := SamplePlan(x, i, f, r, q), Block(Sample(x, i, f, r, q), None);
    SampleFits(m, x, i, f, r, q, Whence(b));
    assert FitEnd(m, StmtsNames(b.stmts), |ReadsBlock(b)|);
    assert Names([]) == {} && FitBlock(m, b, {}, Whence(b));
  }

  // ----- and accepted -----

  /** `let q = &x[i];` with nothing borrowed. */
  lemma {:induction false} ElementWalks(x: string, i: string, q: string, cx: F.Cx) returns (r: F.Cx)
    requires x != q && i != q && Fine(cx) && Mutable(cx, x) && cx.ledger == []
    ensures r == F.WalkStmt(LetRef(q, false, Element(x, i)), cx)
    ensures Fine(r) && r.ledger == [] + [F.Loan(Place(x, [AnyIndex]), F.Shared, Some(q))]
    ensures r.point == cx.point + 2 && r.lastUse == cx.lastUse
  {
    var cx0 := cx.(pending := Some(q));
    var cx1 := F.TryBorrow(cx0, Place(x, [AnyIndex]), F.Shared);
    LetRefWalks(q, false, Element(x, i), cx);
    ElementIsWalked(x, i, cx0);
    assert cx1.ledger == [F.Loan(Place(x, [AnyIndex]), F.Shared, Some(q))] && cx1.diag == [];
    var cx2 := PassPoint(x, cx1);
    var cx3 := PassPoint(i, cx2);
    r := F.WalkStmt(LetRef(q, false, Element(x, i)), cx);
  }

  /** A read of a name that holds nothing. */
  lemma {:induction false} PassPoint(y: string, cx: F.Cx) returns (r: F.Cx)
    requires Fine(cx.(pending := None)) && forall l :: l in cx.ledger ==> l.borrower != Some(y)
    ensures r == F.DecayAfterUse(F.Advance(cx), y) && Fine(r.(pending := None)) && r.ledger == cx.ledger
    ensures r.point == cx.point + 1 && r.pending == cx.pending && r.lastUse == cx.lastUse
  {
    r := F.DecayAfterUse(F.Advance(cx), y);
    NoneHeld(cx.ledger, y);
    DecayIsFine(y, F.Advance(cx));
  }

  lemma ElementIsWalked(x: string, i: string, cx: F.Cx)
    requires x in cx.locals
    ensures
      var cx1 := F.DecayAfterUse(F.Advance(F.TryBorrow(cx, Place(x, [AnyIndex]), F.Shared)), x);
      F.Walk(Element(x, i), F.Use, cx) == F.DecayAfterUse(F.Advance(cx1), i)
  {
    var e, inner := Element(x, i), Index(Var(x), Var(i));
    var cx0 := F.TryBorrow(cx, Place(x, [AnyIndex]), F.Shared);
    ElementPlace(x, i, cx.locals.Keys);
    F.PlaceIsTruncated(inner, cx.locals.Keys);
    BorrowSteps(e, cx, Blank([], Block([], None), []));
    ElementPoints(x, i, cx0);
    assert F.WalkBorrow(e, cx) == F.PointsOnly(inner, cx0);
  }

  lemma ElementPoints(x: string, i: string, cx: F.Cx)
    ensures F.PointsOnly(Index(Var(x), Var(i)), cx) == F.DecayAfterUse(F.Advance(F.DecayAfterUse(F.Advance(cx), x)), i)
  {
    PointOf(x, cx);
    PointOf(i, F.PointsOnly(Var(x), cx));
  }

  lemma PointOf(x: string, cx: F.Cx)
    ensures F.PointsOnly(Var(x), cx) == F.DecayAfterUse(F.Advance(cx), x)
  {
  }

  /** `f(r);` where `r` is read for the last time. */
  lemma {:induction false} GiveWalks(x: string, f: string, r: string, cx: F.Cx) returns (out: F.Cx)
    requires x != r && f != r && Fine(cx) && Mutable(cx, x) && cx.ledger == [] + [F.Loan(Place(x, []), F.Mut, Some(r))]
    requires r in cx.lastUse && cx.lastUse[r] == cx.point + 1
    ensures out == F.WalkStmt(ExprStmt(Give(f, r)), cx) && Fine(out) && Mutable(out, x) && out.ledger == []
    ensures out.point == cx.point + 2 && out.lastUse == cx.lastUse
  {
    var cx1 := ReadWalk(f, cx);
    out := LastReadWalk(r, F.Loan(Place(x, []), F.Mut, Some(r)), [], cx1);
    StmtWalks(Give(f, r), cx);
    GiveSteps(f, r, cx);
  }

  lemma GiveSteps(f: string, r: string, cx: F.Cx)
    ensures F.Walk(Give(f, r), F.Use, cx) == F.Walk(Var(r), F.Use, F.Walk(Var(f), F.Use, cx))
  {
    var cx1 := F.Walk(Var(f), F.Use, cx);
    assert [Var(r)][1..] == [] && F.WalkArgs([Var(r)], [ByValue], cx1) == F.Walk(Var(r), F.Use, cx1);
    assert F.Walk(Give(f, r), F.Use, cx) == F.WalkCall(Give(f, r), cx);
  }

  lemma {:induction false} ElementWalked(x: string, i: string, q: string, cx: F.Cx)
    requires x != q && i != q && Fine(cx) && Mutable(cx, x) && cx.ledger == [] && q in cx.lastUse && cx.lastUse[q] == cx.point + 2
    ensures var out := F.WalkStmts(ElementPart(x, i, q), cx); out.diag == [] && out.ledger == []
  {
    var cx1 := ElementWalks(x, i, q, cx);
    var cx2 := LastReadWalk(q, F.Loan(Place(x, [AnyIndex]), F.Shared, Some(q)), [], cx1);
    StmtWalks(Var(q), cx1);
    FirstWalk(LetRef(q, false, Element(x, i)), [ExprStmt(Var(q))] + [], cx);
    FirstWalk(ExprStmt(Var(q)), [], cx1);
    assert F.WalkStmts([], cx2) == cx2;
  }

  lemma {:induction false} RestWalked(x: string, i: string, f: string, r: string, q: string, cx: F.Cx)
    requires Apart(x, i, f, r, q) && Fine(cx) && Mutable(cx, x) && cx.ledger == [] && cx.point == 0
    requires r in cx.lastUse && cx.lastUse[r] == 2 && q in cx.lastUse && cx.lastUse[q] == 5
    ensures var out := F.WalkStmts(BorrowPart(x, i, f, r, q), cx); out.diag == [] && out.ledger == []
  {
    var cx1 := LendWalks(x, r, true, cx);
    var cx2 := GiveWalks(x, f, r, cx1);
    ElementWalked(x, i, q, cx2);
    FirstWalk(LetRef(r, true, Lend(x, true)), [ExprStmt(Give(f, r))] + ElementPart(x, i, q), cx);
    FirstWalk(ExprStmt(Give(f, r)), ElementPart(x, i, q), cx1);
  }

  lemma {:induction false} SampleIsAccepted(x: string, i: string, f: string, r: string, q: string)
    requires Apart(x, i, f, r, q)
    ensures Checked([], Block(Sample(x, i, f, r, q), None)).diag == []
  {
    var ss := Sample(x, i, f, r, q);
    var cx, ps := Opens(ss, []);
    SampleLast(x, i, f, r, q);
    LetValueStep(i, true, false, cx, ps);
    var cx1 := F.WalkStmt(LetValue(i, true, false), cx);
    var cx2, ps2 := ValueStarts(x, cx1, ps);
    RestWalked(x, i, f, r, q, cx2);
    FirstWalk(LetValue(i, true, false), [LetValue(x, false, true)] + BorrowPart(x, i, f, r, q), cx);
    FirstWalk(LetValue(x, false, true), BorrowPart(x, i, f, r, q), cx1);
    BodyEnds(ss, [], cx, ps);
  }

  /** Covered, accepted, and so safe on every path. */
  lemma {:induction false} SampleIsSafe(x: string, i: string, f: string, r: string, q: string, choices: seq<nat>)
    requires Apart(x, i, f, r, q)
    ensures
      var b := Block(Sample(x, i, f, r, q), None);
      && Covered(SamplePlan(x, i, f, r, q), [], b) && Checked([], b).diag == []
      && !PathThrough([], b, choices).misuse && !PathThrough([], b, choices).clash
      && !PathThrough([], b, choices).dangling && !PathThrough([], b, choices).torn
  {
    SampleIsCovered(x, i, f, r, q);
    SampleIsAccepted(x, i, f, r, q);
    NoUseAfterMove(SamplePlan(x, i, f, r, q), [], Block(Sample(x, i, f, r, q), None), choices);
  }

  // ----- a move after a borrow has ended -----

  /** `let mut x = ..; let r = &x; r; move x;` */
  function Releasing(x: string, r: string): seq<Stmt> {
    [LetValue(x, false, true)] + ([LetRef(r, false, Lend(x, false))] + ([ExprStmt(Var(r))] + ([ExprStmt(Move(Var(x)))] + [])))
  }

  lemma ReleasingReads(x: string, r: string)
    ensures ReadsBlock(Block(Releasing(x, r), None)) == [x, r, x]
  {
    ValueReads(x, false, true);
    StmtReads(x, r, false);
    StmtReads(r, r, false);
    FirstReads(ExprStmt(Move(Var(x))), []);
    FirstReads(ExprStmt(Var(r)), [ExprStmt(Move(Var(x)))] + []);
    FirstReads(LetRef(r, false, Lend(x, false)), [ExprStmt(Var(r))] + ([ExprStmt(Move(Var(x)))] + []));
    FirstReads(LetValue(x, false, true), [LetRef(r, false, Lend(x, false))] + ([ExprStmt(Var(r))] + ([ExprStmt(Move(Var(x)))] + [])));
  }

  function ReleasingPlan(x: string, r: string): Plan {
    Plan(Claim(true, true, true), map[r := {Hold(x, F.Shared)}], {TakeAt(x, F.Shared, 0), MoveAt(x, 2), EndAt({x, r}, 3)}, {}, {}, {},
         map[], {}, {}, 3, LastUses(Block(Releasing(x, r), None)))
  }

  ghost predicate SuitsRelease(m: Plan, x: string, r: string) {
    && x != r && m.may == map[r := {Hold(x, F.Shared)}] && m.steady == {} && m.copies == {} && m.guards == {}
    && m.events == {TakeAt(x, F.Shared, 0), MoveAt(x, 2), EndAt({x, r}, 3)} && m.clans == map[] && m.open == {} && m.derefs == {}
    && r in m.lastUse && m.lastUse[r] == 1
  }

  lemma {:induction false} ReleasingFits(m: Plan, x: string, r: string, w: Where)
    requires SuitsRelease(m, x, r) && w.point == 0
    ensures F.CleanStmts(Releasing(x, r)) && FitStmts(m, Releasing(x, r), {}, w) && StmtsNames(Releasing(x, r)) == {x, r}
  {
    var rest := [ExprStmt(Move(Var(x)))] + [];
    MoveFits(m, x, r, {} + {x} + {r}, On(On(w, 1), 1));
    assert Outlasts(m, r, Hold(x, F.Shared), Span(On(w, 1), {}, 1));
    ReadFits(m, r, {} + {x} + {r}, On(w, 1));
    ReleaseLends(m, x, r, {} + {x}, w);
    ValueFits(m, x, false, true, {}, w);
    ValueReads(x, false, true);
    StmtReads(x, r, false);
    FitFirst(m, ExprStmt(Move(Var(x))), [], {} + {x} + {r} + {}, On(On(w, 1), 1));
    FitFirst(m, ExprStmt(Var(r)), rest, {} + {x} + {r}, On(w, 1));
    FitFirst(m, LetRef(r, false, Lend(x, false)), [ExprStmt(Var(r))] + rest, {} + {x}, w);
    FitFirst(m, LetValue(x, false, true), [LetRef(r, false, Lend(x, false))] + ([ExprStmt(Var(r))] + rest), {}, w);
  }

  lemma ReleaseLends(m: Plan, x: string, r: string, bound: set<string>, w: Where)
    requires SuitsRelease(m, x, r) && bound == {x} && w.point == 0
    ensures var s := LetRef(r, false, Lend(x, false)); F.CleanStmt(s) && FitStmt(m, s, bound, w) && StmtNames(s) == {r} && ReadsStmt(s) == [x]
  {
    RootPlace(x, bound);
    StmtReads(x, r, false);
    assert Reads(Var(x)) == [x] && OperandNames(Var(x)) == [];
    assert Records(m, r, Hold(x, F.Shared), Bound(r, 1, w));
    RefFits(m, r, false, Var(x), bound, w);
  }

  lemma MoveFits(m: Plan, x: string, r: string, bound: set<string>, w: Where)
    requires SuitsRelease(m, x, r) && bound == {x, r} && w.point == 2
    ensures var s := ExprStmt(Move(Var(x))); F.CleanStmt(s) && FitStmt(m, s, bound, w) && StmtNames(s) == {} && ReadsStmt(s) == [x]
  {
    assert Reads(Var(x)) == [x] && Reads(Move(Var(x))) == [x];
    assert FitPath(m, [x], F.Moving, bound, Span(w, {}, 1));
    assert Fit(m, Var(x), F.Moving, bound, Span(w, {}, 1));
  }

  lemma {:induction false} ReleasingIsCovered(x: string, r: string)
    requires x != r
    ensures Covered(ReleasingPlan(x, r), [], Block(Releasing(x, r), None))
  {
    var m, b := ReleasingPlan(x, r), Block(Releasing(x, r), None);
    ReleasingReads(x, r);
    LastReads(b, 1);
    ReleasingFits(m, x, r, Whence(b));
    assert FitEnd(m, StmtsNames(b.stmts), |ReadsBlock(b)|);
    assert Names([]) == {} && FitBlock(m, b, {}, Whence(b));
  }

  lemma {:induction false} ReleasingWalks(x: string, r: string, cx: F.Cx)
    requires x != r && Fine(cx) && cx.ledger == [] && Mutable(cx, x) && cx.locals[x] == F.Local(F.Owned, true, false, false)
    requires cx.point == 0 && r in cx.lastUse && cx.lastUse[r] == 1
    ensures var out := F.WalkStmts([LetRef(r, false, Lend(x, false))] + ([ExprStmt(Var(r))] + ([ExprStmt(Move(Var(x)))] + [])), cx);
            out.diag == [] && out.ledger == []
  {
    var rest := [ExprStmt(Move(Var(x)))] + [];
    var l := F.Loan(Place(x, []), F.Shared, Some(r));
    var cx1 := LendWalks(x, r, false, cx);
    assert cx1.ledger == [] + [l];
    var cx2 := LastReadWalk(r, l, [], cx1);
    assert l in cx1.ledger && SharedAt([], x) == {};
    DecayStates(F.Advance(cx1), r, x);
    FirstWalk(LetRef(r, false, Lend(x, false)), [ExprStmt(Var(r))] + rest, cx);
    StmtWalks(Var(r), cx1);
    FirstWalk(ExprStmt(Var(r)), rest, cx1);
    var ps := Open(Blank([], Block([], None), []));
    FirstWalk(ExprStmt(Move(Var(x))), [], cx2);
    MoveEnds(x, cx2);
  }

  lemma MoveEnds(x: string, cx: F.Cx)
    requires cx.ledger == [] && cx.diag == [] && x in cx.locals && cx.locals[x].state.Owned?
    ensures var out := F.WalkStmts([], F.WalkStmt(ExprStmt(Move(Var(x))), cx)); out.diag == [] && out.ledger == []
  {
    var ps := Open(Blank([], Block([], None), []));
    StmtWalks(Move(Var(x)), cx);
    MoveSteps(Var(x), cx, ps);
    assert F.Walk(Var(x), F.Moving, cx) == F.WalkPath(cx, [x], F.Moving);
    TouchEvent(x, F.Moving, cx);
    QuietMove(x, cx.(point := cx.point + 1));
  }

  /** A body that moves a local after its last reader: covered, accepted, and safe. */
  lemma {:induction false} ReleasingIsSafe(x: string, r: string, choices: seq<nat>)
    requires x != r
    ensures
      var b := Block(Releasing(x, r), None);
      && Covered(ReleasingPlan(x, r), [], b) && Checked([], b).diag == []
      && !PathThrough([], b, choices).misuse && !PathThrough([], b, choices).clash
      && !PathThrough([], b, choices).dangling && !PathThrough([], b, choices).torn
  {
    var ss, b := Releasing(x, r), Block(Releasing(x, r), None);
    ReleasingIsCovered(x, r);
    var cx, ps := Opens(ss, []);
    ReleasingReads(x, r);
    LastReads(b, 1);
    var cx1, ps1 := ValueStarts(x, cx, ps);
    ReleasingWalks(x, r, cx1);
    FirstWalk(LetValue(x, false, true), [LetRef(r, false, Lend(x, false))] + ([ExprStmt(Var(r))] + ([ExprStmt(Move(Var(x)))] + [])), cx);
    BodyEnds(ss, [], cx, ps);
    NoUseAfterMove(ReleasingPlan(x, r), [], b, choices);
  }
}
