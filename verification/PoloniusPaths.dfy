/** An empty Polonius report means no path moves a borrowed place. */
module PoloniusPaths {
  import opened Wrappers
  import opened Hir
  import opened PoloniusSolver
  import opened PoloniusFacts

  /** One path: the place strings with a live loan, whether a move has hit one,
      and the branch choices still to be made. */
  datatype PathState = PathState(live: set<string>, bad: bool, choices: seq<nat>)

  function Choice(ps: PathState): nat { if ps.choices == [] then 0 else ps.choices[0] }

  function Chosen(ps: PathState): PathState {
    if ps.choices == [] then ps else ps.(choices := ps.choices[1..])
  }

  /** Runs one path in evaluation order, everywhere in the expression; a loop runs as
      often as chosen, and the body of a lambda where it is written. Code past a
      `return` still runs: a real path is a prefix of this one. */
  function Run(e: Expr, ps: PathState): PathState
    decreases e
  {
    match e
    case Borrow(_, inner) =>
      var ps1 := Run(inner, ps);
      (match Root(inner) case None => ps1 case Some(place) => ps1.(live := ps1.live + {place}))
    case Move(inner) =>
      var ps1 := Run(inner, ps);
      (match Root(inner)
       case None => ps1
       case Some(place) => ps1.(bad := ps1.bad || place in ps1.live, live := ps1.live - {place}))
    case Binary(l, r) => Run(r, Run(l, ps))
    case Assign(_, _, l, r) => Run(r, Run(l, ps))
    case Unary(_, _, r) => Run(r, ps)
    case Field(r, _) => Run(r, ps)
    case Index(r, i) => Run(i, Run(r, ps))
    case Call(callee, _, args) => RunAll(args, Run(callee, ps))
    case MethodCall(receiver, args) => RunAll(args, Run(receiver, ps))
    case BlockExpr(b) => RunBlock(b, ps)
    case Tuple(xs) => RunAll(xs, ps)
    case If(c, thn, els) =>
      var ps1 := Run(c, ps);
      if Choice(ps1) == 0 then RunBlock(thn, Chosen(ps1))
      else if els.None? then Chosen(ps1)
      else Run(els.value, Chosen(ps1))
    case Match(s, arms) =>
      var ps1 := Run(s, ps);
      if arms == [] then ps1 else RunArm(arms[Choice(ps1) % |arms|], Chosen(ps1))
    case Return(v) => if v.None? then ps else Run(v.value, ps)
    case Lambda(_, body) => RunBlock(body, ps)
    case For(_, it, _) => var ps1 := Run(it, ps); RunTimes(e, Choice(ps1), Chosen(ps1))
    case While(_, _) => RunTimes(e, Choice(ps), Chosen(ps))
    case Loop(_) => RunTimes(e, Choice(ps), Chosen(ps))
    case _ => ps
  }

  /** `n` rounds of a loop, with the condition of a `while` before each and after the last. */
  function RunTimes(e: Expr, n: nat, ps: PathState): PathState
    requires e.For? || e.While? || e.Loop?
    decreases e, n
  {
    var ps1 := if e.While? then Run(e.cond, ps) else ps;
    if n == 0 then ps1 else RunTimes(e, n - 1, RunBlock(e.body, ps1))
  }

  function RunAll(es: seq<Expr>, ps: PathState): PathState
    decreases es
  {
    if es == [] then ps else RunAll(es[1..], Run(es[0], ps))
  }

  function RunArm(arm: Arm, ps: PathState): PathState
    decreases arm
  {
    Run(arm.body, if arm.guard.None? then ps else Run(arm.guard.value, ps))
  }

  function RunBlock(b: Block, ps: PathState): PathState
    decreases b
  {
    var ps1 := RunStmts(b.stmts, ps);
    if b.tail.None? then ps1 else Run(b.tail.value, ps1)
  }

  function RunStmts(ss: seq<Stmt>, ps: PathState): PathState
    decreases ss
  {
    if ss == [] then ps else RunStmts(ss[1..], RunStmt(ss[0], ps))
  }

  function RunStmt(s: Stmt, ps: PathState): PathState
    decreases s
  {
    match s
    case Let(_, init, _) => if init.None? then ps else Run(init.value, ps)
    case ExprStmt(e) => Run(e, ps)
  }

  // ----- what is borrowed and moved anywhere in an expression -----

  /** A borrow or a move of a place string. */
  datatype Act = Takes(place: string) | Moves(place: string)

  function Here(e: Expr): set<Act> {
    match e
    case Borrow(_, inner) => if Root(inner).None? then {} else {Takes(Root(inner).value)}
    case Move(inner) => if Root(inner).None? then {} else {Moves(Root(inner).value)}
    case _ => {}
  }

  function Acts(e: Expr): set<Act>
    decreases e
  {
    match e
    case Borrow(_, inner) => Here(e) + Acts(inner)
    case Move(inner) => Here(e) + Acts(inner)
    case Binary(l, r) => Acts(l) + Acts(r)
    case Assign(_, _, l, r) => Acts(l) + Acts(r)
    case Unary(_, _, r) => Acts(r)
    case Field(r, _) => Acts(r)
    case Index(r, i) => Acts(r) + Acts(i)
    case Call(c, _, args) => Acts(c) + ActsAll(args)
    case MethodCall(r, args) => Acts(r) + ActsAll(args)
    case BlockExpr(b) => ActsBlock(b)
    case Tuple(xs) => ActsAll(xs)
    case If(c, thn, els) => Acts(c) + ActsBlock(thn) + (if els.None? then {} else Acts(els.value))
    case Match(s, arms) => Acts(s) + ActsArms(arms)
    case For(_, it, body) => Acts(it) + ActsBlock(body)
    case While(c, body) => Acts(c) + ActsBlock(body)
    case Loop(body) => ActsBlock(body)
    case Return(v) => if v.None? then {} else Acts(v.value)
    case Lambda(_, body) => ActsBlock(body)
    case _ => {}
  }

  function ActsAll(es: seq<Expr>): set<Act>
    decreases es
  {
    if es == [] then {} else Acts(es[0]) + ActsAll(es[1..])
  }

  function ActsArms(arms: seq<Arm>): set<Act>
    decreases arms
  {
    if arms == [] then {} else ActsArm(arms[0]) + ActsArms(arms[1..])
  }

  function ActsArm(arm: Arm): set<Act>
    decreases arm
  {
    (if arm.guard.None? then {} else Acts(arm.guard.value)) + Acts(arm.body)
  }

  function ActsBlock(b: Block): set<Act>
    decreases b
  {
    ActsStmts(b.stmts) + if b.tail.None? then {} else Acts(b.tail.value)
  }

  function ActsStmts(ss: seq<Stmt>): set<Act>
    decreases ss
  {
    if ss == [] then {} else ActsStmt(ss[0]) + ActsStmts(ss[1..])
  }

  function ActsStmt(s: Stmt): set<Act>
    decreases s
  {
    match s
    case Let(_, init, _) => if init.None? then {} else Acts(init.value)
    case ExprStmt(e) => Acts(e)
  }

  /** No place is both borrowed and moved. */
  predicate Apart(acts: set<Act>) { forall a :: a in acts && a.Takes? ==> Moves(a.place) !in acts }

  // ----- the bodies in question -----

  /** Neither a borrow nor a move inside; the shape of operands, guards and the bodies
      of lambdas. */
  predicate Quiet(e: Expr)
    decreases e
  {
    match e
    case Path(_) => true
    case Literal => true
    case Binary(l, r) => Quiet(l) && Quiet(r)
    case Unary(_, _, r) => Quiet(r)
    case Field(r, _) => Quiet(r)
    case Index(r, i) => Quiet(r) && Quiet(i)
    case Call(c, _, args) => Quiet(c) && QuietAll(args)
    case MethodCall(r, args) => Quiet(r) && QuietAll(args)
    case Tuple(xs) => QuietAll(xs)
    case Assign(_, _, l, r) => Quiet(l) && Quiet(r)
    case BlockExpr(b) => QuietBlock(b)
    case Lambda(_, body) => QuietBlock(body)
    case _ => false
  }

  predicate QuietBlock(b: Block)
    decreases b
  {
    QuietStmts(b.stmts) && (b.tail.Some? ==> Quiet(b.tail.value))
  }

  predicate QuietStmts(ss: seq<Stmt>)
    decreases ss
  {
    ss == [] || (QuietStmt(ss[0]) && QuietStmts(ss[1..]))
  }

  predicate QuietStmt(s: Stmt)
    decreases s
  {
    match s
    case Let(_, init, _) => init.Some? ==> Quiet(init.value)
    case ExprStmt(e) => Quiet(e)
  }

  predicate QuietAll(es: seq<Expr>)
    decreases es
  {
    es == [] || (Quiet(es[0]) && QuietAll(es[1..]))
  }

  /** The bodies the pass sees completely: no empty matches, no borrow or move where it
      does not look (field and index operands, guards, the heads of loops, the bodies of
      lambdas), and no loop that borrows and moves one place. */
  predicate Covered(e: Expr)
    decreases e
  {
    match e
    case Borrow(_, inner) => Covered(inner)
    case Move(inner) => Covered(inner)
    case Binary(l, r) => Covered(l) && Covered(r)
    case Assign(_, _, l, r) => Covered(l) && Covered(r)
    case Unary(_, _, r) => Covered(r)
    case Field(r, _) => Quiet(r)
    case Index(r, i) => Quiet(r) && Quiet(i)
    case Call(c, _, args) => Covered(c) && CoveredAll(args)
    case MethodCall(r, args) => Covered(r) && CoveredAll(args)
    case BlockExpr(b) => CoveredBlock(b)
    case Tuple(xs) => CoveredAll(xs)
    case If(c, thn, els) => Covered(c) && CoveredBlock(thn) && (els.Some? ==> Covered(els.value))
    case Match(s, arms) => Covered(s) && arms != [] && CoveredArms(arms)
    case Return(v) => v.Some? ==> Covered(v.value)
    case For(_, it, body) => Quiet(it) && CoveredBlock(body) && Apart(ActsBlock(body))
    case While(c, body) => Quiet(c) && CoveredBlock(body) && Apart(ActsBlock(body))
    case Loop(body) => CoveredBlock(body) && Apart(ActsBlock(body))
    case Lambda(_, body) => QuietBlock(body)
    case _ => true
  }

  predicate CoveredAll(es: seq<Expr>)
    decreases es
  {
    es == [] || (Covered(es[0]) && CoveredAll(es[1..]))
  }

  predicate CoveredArms(arms: seq<Arm>)
    decreases arms
  {
    arms == [] || (CoveredArm(arms[0]) && CoveredArms(arms[1..]))
  }

  predicate CoveredArm(arm: Arm)
    decreases arm
  {
    (arm.guard.Some? ==> Quiet(arm.guard.value)) && Covered(arm.body)
  }

  predicate CoveredBlock(b: Block)
    decreases b
  {
    CoveredStmts(b.stmts) && (b.tail.Some? ==> Covered(b.tail.value))
  }

  predicate CoveredStmts(ss: seq<Stmt>)
    decreases ss
  {
    ss == [] || (CoveredStmt(ss[0]) && CoveredStmts(ss[1..]))
  }

  predicate CoveredStmt(s: Stmt)
    decreases s
  {
    match s
    case Let(_, init, _) => init.Some? ==> Covered(init.value)
    case ExprStmt(e) => Covered(e)
  }

  ghost predicate Reported(facts: set<Fact>) {
    exists f :: f in facts && f.LoanInvalidated?
  }

  /** The pass has something to report, or the path is good and all its live places are known. */
  ghost predicate Covers(st: Pass, ps: PathState) {
    Listed(st) && (Reported(st.facts) || (ps.live <= st.live.Keys && !ps.bad))
  }

  ghost predicate Listed(st: Pass) { forall k :: k in st.live ==> st.live[k] != [] }

  lemma {:induction false} QuietRuns(e: Expr, ps: PathState)
    requires Quiet(e)
    ensures Run(e, ps) == ps && Acts(e) == {}
    decreases e
  {
    match e
    case Binary(l, r) => QuietRuns(l, ps); QuietRuns(r, ps);
    case Unary(_, _, r) => QuietRuns(r, ps);
    case Field(r, _) => QuietRuns(r, ps);
    case Index(r, i) => QuietRuns(r, ps); QuietRuns(i, ps);
    case Call(c, _, args) => QuietRuns(c, ps); QuietRunsAll(args, ps);
    case MethodCall(r, args) => QuietRuns(r, ps); QuietRunsAll(args, ps);
    case Tuple(xs) => QuietRunsAll(xs, ps);
    case Assign(_, _, l, r) => QuietRuns(l, ps); QuietRuns(r, ps);
    case BlockExpr(b) => QuietRunsBlock(b, ps);
    case Lambda(_, body) => QuietRunsBlock(body, ps);
    case _ =>
  }

  lemma {:induction false} QuietRunsBlock(b: Block, ps: PathState)
    requires QuietBlock(b)
    ensures RunBlock(b, ps) == ps && ActsBlock(b) == {}
    decreases b
  {
    QuietRunsStmts(b.stmts, ps);
    if b.tail.Some? { QuietRuns(b.tail.value, ps); }
  }

  lemma {:induction false} QuietRunsStmts(ss: seq<Stmt>, ps: PathState)
    requires QuietStmts(ss)
    ensures RunStmts(ss, ps) == ps && ActsStmts(ss) == {}
    decreases ss
  {
    if ss != [] {
      QuietRunsStmt(ss[0], ps);
      QuietRunsStmts(ss[1..], ps);
    }
  }

  lemma {:induction false} QuietRunsStmt(s: Stmt, ps: PathState)
    requires QuietStmt(s)
    ensures RunStmt(s, ps) == ps && ActsStmt(s) == {}
    decreases s
  {
    match s
    case Let(_, init, _) => if init.Some? { QuietRuns(init.value, ps); }
    case ExprStmt(e) => QuietRuns(e, ps);
  }

  lemma {:induction false} QuietRunsAll(es: seq<Expr>, ps: PathState)
    requires QuietAll(es)
    ensures RunAll(es, ps) == ps && ActsAll(es) == {}
    decreases es
  {
    if es != [] { QuietRuns(es[0], ps); QuietRunsAll(es[1..], ps); }
  }

  lemma MoreFacts(st: Pass, st': Pass, ps: PathState)
    requires Covers(st, ps) && st.facts <= st'.facts && st.live == st'.live
    ensures Covers(st', ps)
  {
  }

  // ----- what a silent walk says of a whole expression -----

  /** All that is borrowed is live afterwards, as is all that was, and nothing moved was. */
  ghost predicate Swept(acts: set<Act>, st: Pass, st1: Pass) {
    && Listed(st1) && st.live.Keys <= st1.live.Keys
    && forall a :: a in acts ==> if a.Takes? then a.place in st1.live else a.place !in st.live
  }

  lemma SweptBoth(a: set<Act>, b: set<Act>, st: Pass, st1: Pass, st2: Pass)
    requires Swept(a, st, st1) && Swept(b, st1, st2)
    ensures Swept(a + b, st, st2)
  {
  }

  lemma ReportedBefore(st: Pass, st1: Pass)
    requires st.facts <= st1.facts && !Reported(st1.facts)
    ensures !Reported(st.facts)
  {
  }

  lemma {:induction false} SweepExpr(e: Expr, st: Pass)
    requires Covered(e) && Listed(st) && !Reported(Walk(e, st).facts)
    ensures Swept(Acts(e), st, Walk(e, st))
    decreases e, 2
  {
    var st0, ps := Advance(st), PathState({}, false, []);
    match e
    case Borrow(_, _) => SweepOperand(e, st);
    case Move(_) => SweepOperand(e, st);
    case Binary(l, r) => SweepPair(e, l, r, st0);
    case Assign(_, _, l, r) => SweepPair(e, l, r, st0);
    case Unary(_, _, r) => SweepExpr(r, st0);
    case Field(r, _) => QuietRuns(r, ps);
    case Index(r, i) => QuietRuns(r, ps); QuietRuns(i, ps);
    case Call(c, _, args) => SweepCall(e, c, args, st0);
    case MethodCall(r, args) => SweepCall(e, r, args, st0);
    case BlockExpr(b) => SweepBlock(b, st0);
    case Tuple(xs) => SweepAll(xs, st0);
    case If(_, _, _) => SweepIf(e, st);
    case Match(s, arms) => SweepMatch(e, st);
    case Return(v) => if v.Some? { SweepExpr(v.value, st0); }
    case Lambda(_, body) => QuietRunsBlock(body, ps);
    case For(_, it, body) => QuietRuns(it, ps); SweepBlock(body, st0);
    case While(c, body) => QuietRuns(c, ps); SweepBlock(body, st0);
    case Loop(body) => SweepBlock(body, st0);
    case _ =>
  }

  lemma {:induction false} SweepOperand(e: Expr, st: Pass)
    requires (e.Borrow? || e.Move?) && Covered(e) && Listed(st) && !Reported(Walk(e, st).facts)
    ensures Swept(Acts(e), st, Walk(e, st))
    decreases e, 1
  {
    var st0 := Advance(st);
    var st1, root := Walk(e.inner, st0), Root(e.inner);
    ReportedBefore(st1, Walk(e, st));
    SweepExpr(e.inner, st0);
    if e.Move? && root.Some? && root.value in st1.live { LoudMove(st1, root.value, st0.point); }
  }

  /** A move that finds a live loan records it. */
  lemma LoudMove(st: Pass, place: string, p: Point)
    requires Listed(st) && place in st.live
    ensures Reported(Invalidate(st, place, p).facts)
  {
    var l := st.live[place][0];
    assert l in Loans(st.live, place);
    assert LoanInvalidated(l, p) in Invalidate(st, place, p).facts;
  }

  lemma {:induction false} SweepPair(e: Expr, l: Expr, r: Expr, st: Pass)
    requires l < e && r < e && Covered(l) && Covered(r) && Listed(st) && !Reported(Walk(r, Walk(l, st)).facts)
    ensures Swept(Acts(l) + Acts(r), st, Walk(r, Walk(l, st)))
    decreases e, 1
  {
    var st1 := Walk(l, st);
    ReportedBefore(st1, Walk(r, st1));
    SweepExpr(l, st);
    SweepExpr(r, st1);
    SweptBoth(Acts(l), Acts(r), st, st1, Walk(r, st1));
  }

  predicate Called(e: Expr, first: Expr, args: seq<Expr>) {
    (e.Call? && e.callee == first && e.args == args) || (e.MethodCall? && e.receiver == first && e.args == args)
  }

  lemma {:induction false} SweepCall(e: Expr, first: Expr, args: seq<Expr>, st: Pass)
    requires Called(e, first, args) && Covered(first) && CoveredAll(args) && Listed(st) && !Reported(WalkAll(args, Walk(first, st)).facts)
    ensures Swept(Acts(first) + ActsAll(args), st, WalkAll(args, Walk(first, st)))
    decreases e, 1
  {
    var st1 := Walk(first, st);
    ReportedBefore(st1, WalkAll(args, st1));
    SweepExpr(first, st);
    SweepAll(args, st1);
    SweptBoth(Acts(first), ActsAll(args), st, st1, WalkAll(args, st1));
  }

  lemma {:induction false} SweepIf(e: Expr, st: Pass)
    requires e.If? && Covered(e) && Listed(st) && !Reported(Walk(e, st).facts)
    ensures Swept(Acts(e), st, Walk(e, st))
    decreases e, 1
  {
    var st0 := Advance(st);
    var st1 := Walk(e.cond, st0);
    var st2 := WalkBlock(e.thn, st1);
    var st3 := st2.(live := st1.live);
    var st4 := if e.els.None? then st3 else Walk(e.els.value, st3);
    ReportedBefore(st4, Walk(e, st));
    ReportedBefore(st3, st4);
    ReportedBefore(st1, st2);
    SweepExpr(e.cond, st0);
    SweepBlock(e.thn, st1);
    if e.els.Some? { SweepExpr(e.els.value, st3); }
    var rest := ActsBlock(e.thn) + if e.els.None? then {} else Acts(e.els.value);
    assert Swept(rest, st1, Walk(e, st));
    SweptBoth(Acts(e.cond), rest, st0, st1, Walk(e, st));
    assert Acts(e) == Acts(e.cond) + rest;
  }

  lemma {:induction false} SweepMatch(e: Expr, st: Pass)
    requires e.Match? && Covered(e) && Listed(st) && !Reported(Walk(e, st).facts)
    ensures Swept(Acts(e), st, Walk(e, st))
    decreases e, 1
  {
    var st0 := Advance(st);
    var st1 := Walk(e.scrutinee, st0);
    ReportedBefore(st1, Walk(e, st));
    SweepExpr(e.scrutinee, st0);
    SweepArms(e.arms, st1.live, map[], st1);
    SweptBoth(Acts(e.scrutinee), ActsArms(e.arms), st0, st1, Walk(e, st));
  }

  lemma {:induction false} SweepArms(arms: seq<Arm>, snap: Live, joined: Live, st: Pass)
    requires CoveredArms(arms) && Listed(st.(live := snap)) && Listed(st.(live := joined)) && !Reported(WalkArms(arms, snap, joined, st).facts)
    requires arms == [] ==> snap.Keys <= joined.Keys
    ensures
      var st1 := WalkArms(arms, snap, joined, st);
      Swept(ActsArms(arms), st.(live := snap), st1) && joined.Keys <= st1.live.Keys
    decreases arms, 2
  {
    if arms != [] {
      var st1 := WalkArm(arms[0], st.(live := snap));
      var joined1 := JoinLive(joined, st1.live);
      ReportedBefore(st1, WalkArms(arms, snap, joined, st));
      SweepArm(arms[0], st.(live := snap));
      assert Listed(st1.(live := joined1));
      SweepArms(arms[1..], snap, joined1, st1);
    }
  }

  lemma {:induction false} SweepArm(arm: Arm, st: Pass)
    requires CoveredArm(arm) && Listed(st) && !Reported(WalkArm(arm, st).facts)
    ensures Swept(ActsArm(arm), st, WalkArm(arm, st))
    decreases arm, 2
  {
    if arm.guard.Some? { QuietRuns(arm.guard.value, PathState({}, false, [])); }
    SweepExpr(arm.body, st);
  }

  lemma {:induction false} SweepAll(es: seq<Expr>, st: Pass)
    requires CoveredAll(es) && Listed(st) && !Reported(WalkAll(es, st).facts)
    ensures Swept(ActsAll(es), st, WalkAll(es, st))
    decreases es, 2
  {
    if es != [] {
      var st1 := Walk(es[0], st);
      ReportedBefore(st1, WalkAll(es, st));
      SweepExpr(es[0], st);
      SweepAll(es[1..], st1);
      SweptBoth(Acts(es[0]), ActsAll(es[1..]), st, st1, WalkAll(es, st));
    }
  }

  lemma {:induction false} SweepBlock(b: Block, st: Pass)
    requires CoveredBlock(b) && Listed(st) && !Reported(WalkBlock(b, st).facts)
    ensures Swept(ActsBlock(b), st, WalkBlock(b, st))
    decreases b, 2
  {
    var st1 := WalkStmts(b.stmts, st);
    ReportedBefore(st1, WalkBlock(b, st));
    SweepStmts(b.stmts, st);
    if b.tail.Some? {
      SweepExpr(b.tail.value, st1);
      SweptBoth(ActsStmts(b.stmts), Acts(b.tail.value), st, st1, WalkBlock(b, st));
    }
  }

  lemma {:induction false} SweepStmts(ss: seq<Stmt>, st: Pass)
    requires CoveredStmts(ss) && Listed(st) && !Reported(WalkStmts(ss, st).facts)
    ensures Swept(ActsStmts(ss), st, WalkStmts(ss, st))
    decreases ss, 2
  {
    if ss != [] {
      var st1 := WalkStmt(ss[0], st);
      ReportedBefore(st1, WalkStmts(ss, st));
      SweepStmt(ss[0], st);
      SweepStmts(ss[1..], st1);
      SweptBoth(ActsStmt(ss[0]), ActsStmts(ss[1..]), st, st1, WalkStmts(ss, st));
    }
  }

  lemma {:induction false} SweepStmt(s: Stmt, st: Pass)
    requires CoveredStmt(s) && Listed(st) && !Reported(WalkStmt(s, st).facts)
    ensures Swept(ActsStmt(s), st, WalkStmt(s, st))
    decreases s, 2
  {
    match s
    case Let(_, init, _) => if init.Some? { SweepExpr(init.value, st); }
    case ExprStmt(e) => SweepExpr(e, st);
  }

  // ----- rounds -----

  /** Nothing that these acts move is live, and nothing that they borrow do they move. */
  ghost predicate Harmless(acts: set<Act>, live: set<string>) {
    Apart(acts) && forall a :: a in acts && a.Moves? ==> a.place !in live
  }

  /** A run of such acts stays good, and only adds what they borrow. */
  ghost predicate Kept(acts: set<Act>, ps: PathState, r: PathState) {
    r.bad == ps.bad && Harmless(acts, r.live) && forall p :: p in r.live && p !in ps.live ==> Takes(p) in acts
  }

  lemma KeptBoth(acts: set<Act>, a: PathState, b: PathState, c: PathState)
    requires Kept(acts, a, b) && Kept(acts, b, c)
    ensures Kept(acts, a, c)
  {
  }

  lemma {:induction false} ExprKept(acts: set<Act>, e: Expr, ps: PathState)
    requires Acts(e) <= acts && Harmless(acts, ps.live)
    ensures Kept(acts, ps, Run(e, ps))
    decreases e, 2
  {
    match e
    case Borrow(_, inner) => OperandKept(acts, e, ps);
    case Move(inner) => OperandKept(acts, e, ps);
    case Binary(l, r) => PairKept(acts, e, l, r, ps);
    case Assign(_, _, l, r) => PairKept(acts, e, l, r, ps);
    case Index(l, r) => PairKept(acts, e, l, r, ps);
    case Unary(_, _, r) => ExprKept(acts, r, ps);
    case Field(r, _) => ExprKept(acts, r, ps);
    case Call(c, _, args) => CallKept(acts, e, c, args, ps);
    case MethodCall(r, args) => CallKept(acts, e, r, args, ps);
    case BlockExpr(b) => BlockKept(acts, b, ps);
    case Tuple(xs) => AllKept(acts, xs, ps);
    case If(_, _, _) => IfKept(acts, e, ps);
    case Match(_, _) => MatchKept(acts, e, ps);
    case Return(v) => if v.Some? { ExprKept(acts, v.value, ps); }
    case Lambda(_, body) => BlockKept(acts, body, ps);
    case For(_, it, _) =>
      ExprKept(acts, it, ps);
      var ps1 := Run(it, ps);
      RoundsKept(acts, e, Choice(ps1), Chosen(ps1));
      KeptBoth(acts, ps, Chosen(ps1), Run(e, ps));
    case While(_, _) => RoundsKept(acts, e, Choice(ps), Chosen(ps));
    case Loop(_) => RoundsKept(acts, e, Choice(ps), Chosen(ps));
    case _ =>
  }

  lemma {:induction false} RoundsKept(acts: set<Act>, e: Expr, n: nat, ps: PathState)
    requires (e.For? || e.While? || e.Loop?) && ActsBlock(e.body) <= acts && (e.While? ==> Acts(e.cond) <= acts) && Harmless(acts, ps.live)
    ensures Kept(acts, ps, RunTimes(e, n, ps))
    decreases e, 1, n
  {
    var ps1 := if e.While? then Run(e.cond, ps) else ps;
    if e.While? { ExprKept(acts, e.cond, ps); }
    if n > 0 {
      BlockKept(acts, e.body, ps1);
      RoundsKept(acts, e, n - 1, RunBlock(e.body, ps1));
      KeptBoth(acts, ps, ps1, RunBlock(e.body, ps1));
      KeptBoth(acts, ps, RunBlock(e.body, ps1), RunTimes(e, n, ps));
    }
  }

  lemma {:induction false} OperandKept(acts: set<Act>, e: Expr, ps: PathState)
    requires (e.Borrow? || e.Move?) && Acts(e) <= acts && Harmless(acts, ps.live)
    ensures Kept(acts, ps, Run(e, ps))
    decreases e, 1
  {
    ExprKept(acts, e.inner, ps);
  }

  lemma {:induction false} PairKept(acts: set<Act>, e: Expr, l: Expr, r: Expr, ps: PathState)
    requires l < e && r < e && Acts(l) <= acts && Acts(r) <= acts && Harmless(acts, ps.live)
    ensures Kept(acts, ps, Run(r, Run(l, ps)))
    decreases e, 1
  {
    ExprKept(acts, l, ps);
    ExprKept(acts, r, Run(l, ps));
    KeptBoth(acts, ps, Run(l, ps), Run(r, Run(l, ps)));
  }

  lemma {:induction false} CallKept(acts: set<Act>, e: Expr, first: Expr, args: seq<Expr>, ps: PathState)
    requires Called(e, first, args) && Acts(first) <= acts && ActsAll(args) <= acts && Harmless(acts, ps.live)
    ensures Kept(acts, ps, RunAll(args, Run(first, ps)))
    decreases e, 1
  {
    ExprKept(acts, first, ps);
    AllKept(acts, args, Run(first, ps));
    KeptBoth(acts, ps, Run(first, ps), RunAll(args, Run(first, ps)));
  }

  lemma {:induction false} IfKept(acts: set<Act>, e: Expr, ps: PathState)
    requires e.If? && Acts(e) <= acts && Harmless(acts, ps.live)
    ensures Kept(acts, ps, Run(e, ps))
    decreases e, 1
  {
    ExprKept(acts, e.cond, ps);
    var ps1 := Run(e.cond, ps);
    if Choice(ps1) == 0 { BlockKept(acts, e.thn, Chosen(ps1)); }
    else if e.els.Some? { ExprKept(acts, e.els.value, Chosen(ps1)); }
    KeptBoth(acts, ps, Chosen(ps1), Run(e, ps));
  }

  lemma {:induction false} MatchKept(acts: set<Act>, e: Expr, ps: PathState)
    requires e.Match? && Acts(e) <= acts && Harmless(acts, ps.live)
    ensures Kept(acts, ps, Run(e, ps))
    decreases e, 1
  {
    ExprKept(acts, e.scrutinee, ps);
    var ps1 := Run(e.scrutinee, ps);
    if e.arms != [] {
      var k := Choice(ps1) % |e.arms|;
      ArmActs(e.arms, k);
      ArmKept(acts, e.arms[k], Chosen(ps1));
      KeptBoth(acts, ps, Chosen(ps1), Run(e, ps));
    }
  }

  lemma {:induction false} ArmActs(arms: seq<Arm>, k: nat)
    requires k < |arms|
    ensures ActsArm(arms[k]) <= ActsArms(arms)
    decreases k
  {
    if k > 0 { ArmActs(arms[1..], k - 1); }
  }

  lemma {:induction false} ArmKept(acts: set<Act>, arm: Arm, ps: PathState)
    requires ActsArm(arm) <= acts && Harmless(acts, ps.live)
    ensures Kept(acts, ps, RunArm(arm, ps))
    decreases arm, 2
  {
    var ps1 := if arm.guard.None? then ps else Run(arm.guard.value, ps);
    if arm.guard.Some? { ExprKept(acts, arm.guard.value, ps); }
    ExprKept(acts, arm.body, ps1);
    KeptBoth(acts, ps, ps1, RunArm(arm, ps));
  }

  lemma {:induction false} AllKept(acts: set<Act>, es: seq<Expr>, ps: PathState)
    requires ActsAll(es) <= acts && Harmless(acts, ps.live)
    ensures Kept(acts, ps, RunAll(es, ps))
    decreases es, 2
  {
    if es != [] {
      ExprKept(acts, es[0], ps);
      AllKept(acts, es[1..], Run(es[0], ps));
      KeptBoth(acts, ps, Run(es[0], ps), RunAll(es, ps));
    }
  }

  lemma {:induction false} BlockKept(acts: set<Act>, b: Block, ps: PathState)
    requires ActsBlock(b) <= acts && Harmless(acts, ps.live)
    ensures Kept(acts, ps, RunBlock(b, ps))
    decreases b, 2
  {
    StmtsKept(acts, b.stmts, ps);
    if b.tail.Some? {
      ExprKept(acts, b.tail.value, RunStmts(b.stmts, ps));
      KeptBoth(acts, ps, RunStmts(b.stmts, ps), RunBlock(b, ps));
    }
  }

  lemma {:induction false} StmtsKept(acts: set<Act>, ss: seq<Stmt>, ps: PathState)
    requires ActsStmts(ss) <= acts && Harmless(acts, ps.live)
    ensures Kept(acts, ps, RunStmts(ss, ps))
    decreases ss, 2
  {
    if ss != [] {
      StmtKept(acts, ss[0], ps);
      StmtsKept(acts, ss[1..], RunStmt(ss[0], ps));
      KeptBoth(acts, ps, RunStmt(ss[0], ps), RunStmts(ss, ps));
    }
  }

  lemma {:induction false} StmtKept(acts: set<Act>, s: Stmt, ps: PathState)
    requires ActsStmt(s) <= acts && Harmless(acts, ps.live)
    ensures Kept(acts, ps, RunStmt(s, ps))
    decreases s, 2
  {
    match s
    case Let(_, init, _) => if init.Some? { ExprKept(acts, init.value, ps); }
    case ExprStmt(e) => ExprKept(acts, e, ps);
  }

  // ----- every path -----

  lemma {:induction false} PathCovered(e: Expr, ps: PathState, st: Pass)
    requires Covered(e) && Covers(st, ps)
    ensures Covers(Walk(e, st), Run(e, ps))
    decreases e, 2
  {
    var st0 := Advance(st);
    MoreFacts(st, st0, ps);
    match e
    case Borrow(_, inner) => PathCovered(inner, ps, st0);
    case Move(inner) => MoveCovered(e, ps, st);
    case Binary(l, r) => PathCovered(l, ps, st0); PathCovered(r, Run(l, ps), Walk(l, st0));
    case Assign(_, _, l, r) => PathCovered(l, ps, st0); PathCovered(r, Run(l, ps), Walk(l, st0));
    case Unary(_, _, r) => PathCovered(r, ps, st0);
    case Field(r, _) => QuietRuns(r, ps);
    case Index(r, i) => QuietRuns(r, ps); QuietRuns(i, ps);
    case Call(c, _, args) => PathCovered(c, ps, st0); AllCovered(args, Run(c, ps), Walk(c, st0));
    case MethodCall(r, args) => PathCovered(r, ps, st0); AllCovered(args, Run(r, ps), Walk(r, st0));
    case BlockExpr(b) => BlockCovered(b, ps, st0);
    case Tuple(xs) => AllCovered(xs, ps, st0);
    case If(_, _, _) => IfCovered(e, ps, st);
    case Match(s, arms) =>
      PathCovered(s, ps, st0);
      var ps1, st1 := Run(s, ps), Walk(s, st0);
      ArmsCovered(arms, st1.live, map[], Chosen(ps1), st1, Choice(ps1) % |arms|);
    case Return(v) => if v.Some? { PathCovered(v.value, ps, st0); }
    case Lambda(_, body) => QuietRunsBlock(body, ps);
    case For(_, it, _) => QuietRuns(it, ps); LoopCovered(e, Choice(ps), Chosen(ps), st);
    case While(_, _) => LoopCovered(e, Choice(ps), Chosen(ps), st);
    case Loop(_) => LoopCovered(e, Choice(ps), Chosen(ps), st);
    case _ =>
  }

  /** A loop that is walked once covers any number of rounds. */
  lemma {:induction false} LoopCovered(e: Expr, n: nat, ps: PathState, st: Pass)
    requires (e.For? || e.While? || e.Loop?) && Covered(e) && Covers(st, ps)
    ensures Covers(WalkBlock(e.body, Advance(st)), RunTimes(e, n, ps))
    decreases e, 1
  {
    var st0, acts := Advance(st), ActsBlock(e.body);
    var st1 := WalkBlock(e.body, st0);
    BlockCovered(e.body, PathState({}, false, []), st0);
    if !Reported(st1.facts) {
      assert !Reported(st.facts);
      SweepBlock(e.body, st0);
      if e.While? { QuietRuns(e.cond, ps); }
      RoundsKept(acts, e, n, ps);
    }
  }

  lemma {:induction false} MoveCovered(e: Expr, ps: PathState, st: Pass)
    requires e.Move? && Covered(e) && Covers(st, ps)
    ensures Covers(Walk(e, st), Run(e, ps))
    decreases e, 1
  {
    var st0 := Advance(st);
    MoreFacts(st, st0, ps);
    PathCovered(e.inner, ps, st0);
    var st1, ps1 := Walk(e.inner, st0), Run(e.inner, ps);
    if Root(e.inner).Some? && !Reported(st1.facts) && Root(e.inner).value in ps1.live {
      LoudMove(st1, Root(e.inner).value, st0.point);
    }
  }

  lemma {:induction false} IfCovered(e: Expr, ps: PathState, st: Pass)
    requires e.If? && Covered(e) && Covers(st, ps)
    ensures Covers(Walk(e, st), Run(e, ps))
    decreases e, 1
  {
    var st0 := Advance(st);
    MoreFacts(st, st0, ps);
    PathCovered(e.cond, ps, st0);
    var st1, ps1 := Walk(e.cond, st0), Run(e.cond, ps);
    var taken := Chosen(ps1);
    BlockCovered(e.thn, taken, st1);
    var st2 := WalkBlock(e.thn, st1);
    var st3 := st2.(live := st1.live);
    MoreFacts(st1, st3, taken);
    if e.els.Some? { PathCovered(e.els.value, taken, st3); }
  }

  lemma {:induction false} AllCovered(es: seq<Expr>, ps: PathState, st: Pass)
    requires CoveredAll(es) && Covers(st, ps)
    ensures Covers(WalkAll(es, st), RunAll(es, ps))
    decreases es, 2
  {
    if es != [] { PathCovered(es[0], ps, st); AllCovered(es[1..], Run(es[0], ps), Walk(es[0], st)); }
  }

  /** The walk over all arms covers the path through arm `k`. */
  lemma {:induction false} ArmsCovered(arms: seq<Arm>, snap: Live, joined: Live, ps: PathState, st: Pass, k: nat)
    requires k < |arms| && CoveredArms(arms)
    requires Covers(st.(live := snap), ps) && forall p :: p in joined ==> joined[p] != []
    ensures Covers(WalkArms(arms, snap, joined, st), RunArm(arms[k], ps))
    decreases arms, 2
  {
    ArmCovered(arms[0], ps, st.(live := snap));
    var st1 := WalkArm(arms[0], st.(live := snap));
    var joined1 := JoinLive(joined, st1.live);
    MoreFacts(st.(live := snap), st1.(live := snap), ps);
    if k == 0 {
      JoinedStays(arms[1..], snap, joined1, st1, ps, RunArm(arms[0], ps));
    } else {
      ArmsCovered(arms[1..], snap, joined1, ps, st1, k - 1);
    }
  }

  /** What has been joined stays covered by the remaining arms. */
  lemma {:induction false} JoinedStays(arms: seq<Arm>, snap: Live, joined: Live, st: Pass, start: PathState, ps: PathState)
    requires CoveredArms(arms)
    requires Covers(st.(live := joined), ps) && Covers(st.(live := snap), start)
    ensures Covers(WalkArms(arms, snap, joined, st), ps)
    decreases arms, 2
  {
    if arms != [] {
      ArmCovered(arms[0], start, st.(live := snap));
      var st1 := WalkArm(arms[0], st.(live := snap));
      MoreFacts(st.(live := snap), st1.(live := snap), start);
      JoinedStays(arms[1..], snap, JoinLive(joined, st1.live), st1, start, ps);
    }
  }

  lemma {:induction false} ArmCovered(arm: Arm, ps: PathState, st: Pass)
    requires CoveredArm(arm) && Covers(st, ps)
    ensures Covers(WalkArm(arm, st), RunArm(arm, ps))
    decreases arm, 2
  {
    if arm.guard.Some? { QuietRuns(arm.guard.value, ps); }
    PathCovered(arm.body, ps, st);
  }

  lemma {:induction false} BlockCovered(b: Block, ps: PathState, st: Pass)
    requires CoveredBlock(b) && Covers(st, ps)
    ensures Covers(WalkBlock(b, st), RunBlock(b, ps))
    decreases b, 2
  {
    StmtsCovered(b.stmts, ps, st);
    if b.tail.Some? { PathCovered(b.tail.value, RunStmts(b.stmts, ps), WalkStmts(b.stmts, st)); }
  }

  lemma {:induction false} StmtsCovered(ss: seq<Stmt>, ps: PathState, st: Pass)
    requires CoveredStmts(ss) && Covers(st, ps)
    ensures Covers(WalkStmts(ss, st), RunStmts(ss, ps))
    decreases ss, 2
  {
    if ss != [] {
      StmtCovered(ss[0], ps, st);
      StmtsCovered(ss[1..], RunStmt(ss[0], ps), WalkStmt(ss[0], st));
    }
  }

  lemma {:induction false} StmtCovered(s: Stmt, ps: PathState, st: Pass)
    requires CoveredStmt(s) && Covers(st, ps)
    ensures Covers(WalkStmt(s, st), RunStmt(s, ps))
    decreases s, 2
  {
    match s
    case Let(_, init, _) => if init.Some? { PathCovered(init.value, ps, st); }
    case ExprStmt(e) => PathCovered(e, ps, st);
  }

  /** If the solved facts hold no error, no choice of branches moves a place
      that has a live loan on that path. */
  lemma EmptyReportIsSafe(b: Block, fs: set<Fact>, choices: seq<nat>)
    requires CoveredBlock(b)
    requires LeastModel(WalkBlock(b, START).loans, WalkBlock(b, START).facts, fs)
    requires forall f :: f in fs ==> !f.Error?
    ensures !RunBlock(b, PathState({}, false, choices)).bad
  {
    ReportIsExact(b, fs);
    BlockCovered(b, PathState({}, false, choices), START);
    forall f | f in WalkBlock(b, START).facts ensures f.LoanInvalidated? ==> Error(f.loan, f.point) in fs
    {
    }
  }

  // ----- where the pass does not look -----

  /** `&x; e;` */
  function AfterBorrow(x: Expr, e: Expr): Block { Block([ExprStmt(Borrow(false, x)), ExprStmt(e)], None) }

  /** The pass sees nothing in `e`, which moves `place` on the path. */
  ghost predicate HiddenMove(e: Expr, place: string, st: Pass, ps: PathState) {
    Walk(e, st).facts == st.facts && !Covered(e) && Run(e, ps) == ps.(bad := ps.bad || place in ps.live, live := ps.live - {place})
  }

  lemma {:induction false} OneBorrow(x: Expr, place: string, choices: seq<nat>) returns (st: Pass, ps: PathState)
    requires x.Path? && Root(x) == Some(place)
    ensures st == Walk(Borrow(false, x), START) && !Reported(st.facts)
    ensures ps == Run(Borrow(false, x), PathState({}, false, choices)) && ps == PathState({place}, false, choices)
  {
    st, ps := Walk(Borrow(false, x), START), Run(Borrow(false, x), PathState({}, false, choices));
    assert Walk(x, Advance(START)).facts == {} && forall f :: f in st.facts ==> f.BorrowAt?;
    assert Run(x, PathState({}, false, choices)) == PathState({}, false, choices) && {} + {place} == {place};
  }

  lemma {:induction false} HiddenMoveIsMissed(x: Expr, e: Expr, place: string, moved: string, st: Pass, ps: PathState, choices: seq<nat>)
    requires x.Path? && Root(x) == Some(place) && HiddenMove(e, moved, st, ps)
    requires st == Walk(Borrow(false, x), START) && ps == Run(Borrow(false, x), PathState({}, false, choices))
    ensures
      var b := AfterBorrow(x, e);
      && !CoveredBlock(b) && !Reported(WalkBlock(b, START).facts)
      && (RunBlock(b, PathState({}, false, choices)).bad <==> moved == place)
  {
    var st0, ps0 := OneBorrow(x, place, choices);
    TwoStmts(ExprStmt(Borrow(false, x)), ExprStmt(e), START, PathState({}, false, choices));
  }

  lemma TwoStmts(s1: Stmt, s2: Stmt, st: Pass, ps: PathState)
    ensures WalkStmts([s1, s2], st) == WalkStmt(s2, WalkStmt(s1, st)) && RunStmts([s1, s2], ps) == RunStmt(s2, RunStmt(s1, ps))
    ensures CoveredStmts([s1, s2]) ==> CoveredStmt(s2)
  {
    assert [s1, s2][1..] == [s2] && [s2][1..] == [];
    assert WalkStmts([s2], WalkStmt(s1, st)) == WalkStmt(s2, WalkStmt(s1, st));
    assert RunStmts([s2], RunStmt(s1, ps)) == RunStmt(s2, RunStmt(s1, ps));
    assert CoveredStmts([s2]) ==> CoveredStmt(s2);
  }

  lemma PathMoves(y: Expr, moved: string, ps: PathState)
    requires y.Path? && Root(y) == Some(moved)
    ensures Run(Move(y), ps) == ps.(bad := ps.bad || moved in ps.live, live := ps.live - {moved})
  {
    assert Run(y, ps) == ps;
  }

  /** `&x; (move y).f` records nothing, and is a bad path exactly when `y` is `x`: the
      pass does not look below a field access. */
  lemma {:induction false} MoveUnderFieldIsMissed(x: Expr, y: Expr, name: string, place: string, moved: string, choices: seq<nat>)
    requires x.Path? && Root(x) == Some(place) && y.Path? && Root(y) == Some(moved)
    ensures
      var b := AfterBorrow(x, Field(Move(y), name));
      && !CoveredBlock(b) && !Reported(WalkBlock(b, START).facts)
      && (RunBlock(b, PathState({}, false, choices)).bad <==> moved == place)
  {
    var e := Field(Move(y), name);
    var st, ps := OneBorrow(x, place, choices);
    PathMoves(y, moved, ps);
    assert !Quiet(Move(y)) && !Covered(e);
    HiddenMoveIsMissed(x, e, place, moved, st, ps, choices);
  }

  /** `&x; || move y` records nothing, and is a bad path exactly when `y` is `x`: the
      pass does not look into a lambda. */
  lemma {:induction false} MoveInLambdaIsMissed(x: Expr, y: Expr, place: string, moved: string, choices: seq<nat>)
    requires x.Path? && Root(x) == Some(place) && y.Path? && Root(y) == Some(moved)
    ensures
      var b := AfterBorrow(x, Lambda([], Block([], Some(Move(y)))));
      && !CoveredBlock(b) && !Reported(WalkBlock(b, START).facts)
      && (RunBlock(b, PathState({}, false, choices)).bad <==> moved == place)
  {
    var body := Block([], Some(Move(y)));
    var e := Lambda([], body);
    var st, ps := OneBorrow(x, place, choices);
    PathMoves(y, moved, ps);
    assert RunStmts([], ps) == ps && RunBlock(body, ps) == Run(Move(y), ps);
    assert !Quiet(Move(y)) && !QuietBlock(body) && !Covered(e);
    HiddenMoveIsMissed(x, e, place, moved, st, ps, choices);
  }

  // ----- a second round -----

  /** `loop { move y; &x; }` */
  function Rounds(x: Expr, y: Expr): Expr { Loop(Block([ExprStmt(Move(y)), ExprStmt(Borrow(false, x))], None)) }

  lemma {:induction false} OneRound(x: Expr, y: Expr, place: string, moved: string, ps: PathState)
    requires x.Path? && Root(x) == Some(place) && y.Path? && Root(y) == Some(moved)
    ensures RunBlock(Rounds(x, y).body, ps) == ps.(bad := ps.bad || moved in ps.live, live := ps.live - {moved} + {place})
  {
    PathMoves(y, moved, ps);
    TwoStmts(ExprStmt(Move(y)), ExprStmt(Borrow(false, x)), START, ps);
    assert Run(x, Run(Move(y), ps)) == Run(Move(y), ps);
  }

  /** Bad from the second round on if the place moved is the one borrowed, and never otherwise. */
  lemma {:induction false} SomeRounds(x: Expr, y: Expr, place: string, moved: string, n: nat, ps: PathState)
    requires x.Path? && Root(x) == Some(place) && y.Path? && Root(y) == Some(moved) && !ps.bad && ps.live <= {place}
    requires moved == place || moved !in ps.live
    ensures RunTimes(Rounds(x, y), n, ps).bad <==> moved == place && (n > 1 || (n == 1 && place in ps.live))
    decreases n
  {
    if n > 0 {
      OneRound(x, y, place, moved, ps);
      var ps1 := RunBlock(Rounds(x, y).body, ps);
      assert ps1.live == {place};
      if ps1.bad {
        StaysBad(x, y, place, moved, n - 1, ps1);
      } else {
        SomeRounds(x, y, place, moved, n - 1, ps1);
      }
    }
  }

  lemma {:induction false} StaysBad(x: Expr, y: Expr, place: string, moved: string, n: nat, ps: PathState)
    requires x.Path? && Root(x) == Some(place) && y.Path? && Root(y) == Some(moved) && ps.bad
    ensures RunTimes(Rounds(x, y), n, ps).bad
    decreases n
  {
    if n > 0 {
      OneRound(x, y, place, moved, ps);
      StaysBad(x, y, place, moved, n - 1, RunBlock(Rounds(x, y).body, ps));
    }
  }

  lemma TwoActs(s1: Stmt, s2: Stmt)
    ensures ActsStmts([s1, s2]) == ActsStmt(s1) + ActsStmt(s2) && (CoveredStmts([s1, s2]) <==> CoveredStmt(s1) && CoveredStmt(s2))
  {
    assert [s1, s2][1..] == [s2] && [s2][1..] == [];
    assert ActsStmts([s2]) == ActsStmt(s2) + ActsStmts([]) && (CoveredStmts([s2]) <==> CoveredStmt(s2));
  }

  lemma {:induction false} RoundsWalk(x: Expr, y: Expr, place: string, moved: string)
    requires x.Path? && Root(x) == Some(place) && y.Path? && Root(y) == Some(moved)
    ensures !Reported(Walk(Rounds(x, y), START).facts)
    ensures ActsBlock(Rounds(x, y).body) == {Moves(moved), Takes(place)} && (Covered(Rounds(x, y)) <==> moved != place)
  {
    var s1, s2, st := ExprStmt(Move(y)), ExprStmt(Borrow(false, x)), Advance(START);
    TwoStmts(s1, s2, st, PathState({}, false, []));
    RootedIsQuiet(y, Advance(st));
    assert Walk(Move(y), st).facts == {} && Walk(Move(y), st).live == map[];
    RootedIsQuiet(x, Advance(Walk(Move(y), st)));
    assert forall f :: f in Walk(Borrow(false, x), Walk(Move(y), st)).facts ==> f.BorrowAt?;
    assert Acts(y) == {} && Acts(x) == {};
    assert Here(Move(y)) == {Moves(moved)} && Here(Borrow(false, x)) == {Takes(place)};
    assert Acts(Move(y)) == Here(Move(y)) + Acts(y) && Acts(Borrow(false, x)) == Here(Borrow(false, x)) + Acts(x);
    assert Covered(y) && Covered(x) && Covered(Move(y)) && Covered(Borrow(false, x));
    TwoActs(s1, s2);
    var acts := ActsBlock(Rounds(x, y).body);
    assert acts == {Moves(moved), Takes(place)};
    assert Apart(acts) <==> moved != place by { assert Takes(place) in acts && Moves(moved) in acts; }
  }

  /** `loop { move y; &x; }` records nothing, and is a bad path exactly when `y` is `x`
      and the body runs twice: the pass walks it once. */
  lemma {:induction false} SecondRoundIsMissed(x: Expr, y: Expr, place: string, moved: string, choices: seq<nat>)
    requires x.Path? && Root(x) == Some(place) && y.Path? && Root(y) == Some(moved)
    ensures
      var b := Block([ExprStmt(Rounds(x, y))], None);
      && !Reported(WalkBlock(b, START).facts) && (CoveredBlock(b) <==> moved != place)
      && (RunBlock(b, PathState({}, false, choices)).bad <==> moved == place && choices != [] && choices[0] > 1)
  {
    var s, ps := ExprStmt(Rounds(x, y)), PathState({}, false, choices);
    RoundsWalk(x, y, place, moved);
    SomeRounds(x, y, place, moved, Choice(ps), Chosen(ps));
    assert [s][1..] == [];
    assert WalkStmts([s], START) == WalkStmts([], Walk(Rounds(x, y), START)) == Walk(Rounds(x, y), START);
    assert RunStmts([s], ps) == RunStmts([], Run(Rounds(x, y), ps)) == Run(Rounds(x, y), ps);
    assert CoveredStmts([s]) <==> Covered(Rounds(x, y));
  }
}
