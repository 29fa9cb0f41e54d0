/** The bodies that the path theorems are about: conditions a caller can check on
    the syntax, the recorded types and the last-use map. */
module FlowFit {
  import opened Wrappers
  import opened Hir
  import opened Places
  import opened Nll
  import opened FlowState
  import opened FlowActs
  import opened FlowPaths
  import F = Flow

  /** What is claimed beyond that no mutable borrow overlaps another live borrow.
      `moves`: no moved or uninitialised local is read, moved or borrowed. `scopes`: no
      borrow of a local is held past the end of its scope and read later. `owners`: no
      local is moved out while a borrow of it lives. */
  datatype Claim = Claim(moves: bool, scopes: bool, owners: bool)

  /** A borrow, by the local it is of. */
  datatype Hold = Hold(root: string, kind: F.BorrowKind)

  /** A borrow is taken; a scope with these names ends; a local is moved. */
  datatype Event =
    | TakeAt(root: string, kind: F.BorrowKind, point: nat) | EndAt(names: set<string>, point: nat) | MoveAt(root: string, point: nat)

  /** A borrow of `root` taken at `from` still counts when `root` is moved at `until`. */
  datatype Guard = Guard(root: string, from: nat, until: nat)

  /** What is claimed; what every name may hold; what happens where; which borrows count when their local is moved; the names
      that always have their value, and those of a Copy type; the group of names
      that each name may be reached from; the groups that lead outside; the locals
      whose borrowed parts all start with a dereference; the end of the body; and the
      last read of every name. */
  datatype Plan = Plan(claim: Claim, may: map<string, set<Hold>>, events: set<Event>, guards: set<Guard>, steady: set<string>, copies: set<string>,
                       clans: map<string, string>, open: set<string>, derefs: set<string>, horizon: nat, lastUse: map<string, nat>) {
    predicate Strict() { claim.moves }

    predicate Scoped() { claim.scopes }

    predicate Owners() { claim.owners }

    function Clan(x: string): string { if x in clans then clans[x] else x }
  }

  /** Where an expression stands: the walker's pending borrower, the names its
      value goes to, how long that value lasts, and the next point. */
  datatype Where = Where(pend: Option<string>, carry: set<string>, limit: nat, point: nat)

  function On(w: Where, n: nat): Where { w.(point := w.point + n) }

  /** A whole expression of `n` reads, for these names. */
  function Span(w: Where, names: set<string>, n: nat): Where { w.(carry := names, limit := w.point + n) }

  // ----- names and types -----

  /** The type tables do not call a type a reference, or Copy, that is not one. */
  predicate Faithful(m: Plan, b: Binding) {
    (m.Strict() && b.copy ==> b.reallyCopy) && (b.reference ==> b.reallyRef)
  }

  function Names(bs: seq<Binding>): set<string> { set b | b in bs :: b.name }

  predicate Suited(m: Plan, b: Binding, unset: bool) {
    && (b.name in m.steady ==> !unset) && (b.name in m.copies ==> b.reallyCopy) && (b.carries ==> b.name in m.may)
  }

  /** Fresh, distinct names, typed faithfully. A `let` without a value is always
      recorded as Copy, so for the full claim the declared type has to be. */
  predicate FreshNames(m: Plan, bs: seq<Binding>, unset: bool, bound: set<string>)
    decreases |bs|
  {
    bs == []
    || (bs[0].name !in bound && (if unset then m.Strict() ==> bs[0].reallyCopy else Faithful(m, bs[0]))
        && Suited(m, bs[0], unset) && FreshNames(m, bs[1..], unset, bound + {bs[0].name}))
  }

  function StmtNames(s: Stmt): set<string> {
    match s case Let(pat, _, _) => PatNames(pat) case ExprStmt(_) => {}
  }

  function StmtsNames(ss: seq<Stmt>): set<string> {
    if ss == [] then {} else StmtNames(ss[0]) + StmtsNames(ss[1..])
  }

  /** Always holding a value, or no local at all. */
  predicate SteadyOperands(m: Plan, xs: seq<string>, bound: set<string>) {
    forall x :: x in xs ==> x in m.steady || x !in bound
  }

  // ----- borrows and their holders -----

  predicate Hits(h: Hold, t: Event) {
    match t
    case TakeAt(root, kind, _) => h.root == root && (h.kind == F.Mut || kind == F.Mut)
    case EndAt(names, _) => h.root in names
    case MoveAt(root, _) => h.root == root
  }

  /** A name that is read at `t` or later, and that `t` does not end. */
  predicate Reaches(m: Plan, t: Event, y: string) { Later(m.lastUse, y, t.point) && (t.EndAt? ==> y !in t.names) }

  /** A borrow of `root` that goes where `w` says is still held at `t`; at the end of a
      scope, by a name. */
  predicate Extends(m: Plan, t: Event, root: string, w: Where) {
    (!t.EndAt? && t.point < w.limit) || exists y :: y in w.carry && y != root && Reaches(m, t, y)
  }

  /** Reading `x` hands `h` on. Whatever conflicts with `h` from now on, while it is
      held by the names it is handed to, comes before the last read of `x`. */
  predicate Outlasts(m: Plan, x: string, h: Hold, w: Where) {
    && (forall y :: y in w.carry && y != h.root ==> y in m.may && h in m.may[y])
    && forall t :: t in m.events && t.point >= w.point && Hits(h, t) && Extends(m, t, h.root, w) ==> Reaches(m, t, x)
  }

  predicate Kindred(m: Plan, x: string, names: set<string>) { forall y :: y in names ==> m.Clan(y) == m.Clan(x) }

  predicate FitRead(m: Plan, x: string, bound: set<string>, w: Where) {
    && (x in m.may ==> Kindred(m, x, w.carry) && forall h :: h in m.may[x] ==> Outlasts(m, x, h, w))
    && (x !in bound ==> forall y :: y in w.carry ==> m.Clan(y) in m.open)
  }

  predicate FitReads(m: Plan, xs: seq<string>, bound: set<string>, w: Where) {
    xs == [] || (FitRead(m, xs[0], bound, w) && FitReads(m, xs[1..], bound, w))
  }

  /** A borrow recorded under `b` is recorded for as long as that matters. */
  predicate Records(m: Plan, b: string, h: Hold, w: Where) {
    && b in m.may && h in m.may[b]
    && forall t :: t in m.events && t.point > w.point && Hits(h, t) && Extends(m, t, h.root, w) ==> Reaches(m, t, b)
  }

  /** A borrow recorded under no name does not outlive its local. */
  predicate StaysIn(m: Plan, h: Hold, w: Where) {
    forall t :: t in m.events && t.EndAt? && t.point > w.point && Hits(h, t) ==> !Extends(m, t, h.root, w)
  }

  /** What is still held when its local is moved is guarded from here on. */
  predicate Pledges(m: Plan, h: Hold, w: Where) {
    forall t :: t in m.events && t.MoveAt? && t.point > w.point && Hits(h, t) && Extends(m, t, h.root, w)
                ==> Guard(h.root, w.point, t.point) in m.guards
  }

  /** Every guard from this point on is of this borrow, and its record lasts as long. */
  predicate Starts(m: Plan, root: string, w: Where) {
    m.Owners() ==> forall g :: g in m.guards && g.from == w.point
                               ==> g.root == root && (w.pend.Some? ==> Later(m.lastUse, w.pend.value, g.until))
  }

  /** No guard starts between two points. */
  predicate NoStarts(m: Plan, lo: nat, hi: nat) { m.Owners() ==> forall g :: g in m.guards ==> !(lo <= g.from < hi) }

  /** None that starts there lasts beyond. */
  predicate NoCross(m: Plan, lo: nat, hi: nat) { m.Owners() ==> forall g :: g in m.guards && lo <= g.from < hi ==> g.until < hi }

  /** None of these names is guarded at a point. */
  predicate Unguarded(m: Plan, names: set<string>, point: nat) {
    m.Owners() ==> forall g :: g in m.guards && g.root in names ==> !(g.from < point <= g.until)
  }

  /** A local is dereferenced first in all its borrowed parts, or in none. */
  predicate Regular(m: Plan, place: Place) { place.projs != [] ==> (place.projs[0].DerefOf? <==> place.root in m.derefs) }

  /** A new borrow is listed, held where it may be, and recorded. */
  predicate FitTake(m: Plan, place: Place, kind: F.BorrowKind, w: Where) {
    var root := place.root;
    && Regular(m, place)
    && TakeAt(root, kind, w.point) in m.events && (root in m.may ==> Kindred(m, root, w.carry))
    && (forall y :: y in w.carry && y != root ==> y in m.may && Hold(root, kind) in m.may[y])
    && Pledges(m, Hold(root, kind), w) && Starts(m, root, w)
    && if w.pend.Some? then Records(m, w.pend.value, Hold(root, kind), w) else StaysIn(m, Hold(root, kind), w)
  }

  /** The end of a scope is listed, and none of its names is read afterwards while
      something conflicts with what it holds. */
  predicate FitEnd(m: Plan, names: set<string>, point: nat) {
    Unfit(m, names, point) == {}
  }

  function Unfit(m: Plan, names: set<string>, point: nat): set<string> { set x | x in names && !FitLast(m, x, names, point) }

  predicate FitLast(m: Plan, x: string, names: set<string>, point: nat) {
    && (m.Scoped() ==> EndAt(names, point) in m.events)
    && (x in m.may ==> forall h :: h in m.may[x] ==> Ended(m, x, h, point))
  }

  predicate Ended(m: Plan, x: string, h: Hold, point: nat) {
    forall t :: t in m.events && t.point >= point && Hits(h, t) ==> !Reaches(m, t, x)
  }

  // ----- what else a value may reach -----

  function Clans(m: Plan, names: set<string>): set<string> { set x | x in names :: m.Clan(x) }

  function Reach(m: Plan, names: set<string>, bound: set<string>): set<string> {
    set y | y in bound && y in m.may && m.Clan(y) in Clans(m, names)
  }

  function Limit(m: Plan, w: Where, names: set<string>, outside: bool): nat {
    if outside || !(Clans(m, names) !! m.open) then Max(w.limit, m.horizon) else w.limit
  }

  /** Toward all that these names may be tied to. */
  function Spreading(m: Plan, w: Where, names: set<string>, bound: set<string>, outside: bool): Where {
    w.(carry := Reach(m, names, bound), limit := Limit(m, w, names, outside))
  }

  function Mingling(m: Plan, w: Where, names: set<string>, bound: set<string>, outside: bool): Where {
    w.(carry := w.carry + Reach(m, names, bound), limit := Limit(m, w, names, outside))
  }

  function Amid(m: Plan, e: Expr, bound: set<string>, w: Where): Where
    requires e.Call? || e.MethodCall?
  {
    var names := OperandsOf(e, bound); Mingling(m, w, names, bound, !(names <= bound))
  }

  predicate Simple(e: Expr) { e.Path? && |e.segs| == 1 }

  function AfterTarget(m: Plan, e: Expr, bound: set<string>, w: Where): Where
    requires e.Assign?
  {
    var w1 := w.(pend := if !e.compound && Simple(e.lhs) then Some(e.lhs.segs[0]) else w.pend);
    var names := F.NameSet(Reads(e.lhs));
    if e.carries then Spreading(m, w1, names, bound, !(names <= bound)) else w1.(carry := {})
  }

  // ----- bodies -----

  /** No shadowing, no match guards, faithful types, borrows handed on as above, no
      lambda that moves or borrows a local around it; for the full claim, index
      operands of borrowed places and lambdas read only steady locals. */
  predicate Fit(m: Plan, e: Expr, pos: F.Position, bound: set<string>, w: Where)
    decreases e, 1
  {
    match e
    case Path(segs) => segs != [] ==> FitPath(m, segs, pos, bound, w)
    case BlockExpr(b) => FitBlock(m, b, bound, w)
    case Tuple(xs) => FitAll(m, xs, bound, w)
    case Binary(l, r) => Fit(m, l, F.Use, bound, w) && Fit(m, r, F.Use, bound, On(w, |Reads(l)|))
    case Assign(_, _, _, _) => FitAssign(m, e, bound, w)
    case Unary(_, _, r) => Fit(m, r, F.Use, bound, w)
    case Borrow(_, _) => FitBorrow(m, e, bound, w)
    case Move(inner) =>
      if inner.Unary? && inner.deref then Fit(m, inner.operand, F.Use, bound, w) else Fit(m, inner, F.Moving, bound, w)
    case Call(_, _, _) => FitCall(m, e, bound, w)
    case MethodCall(_, _) => FitCall(m, e, bound, w)
    case Field(r, _) => Fit(m, r, F.Use, bound, w)
    case Index(r, i) => Fit(m, r, F.Use, bound, w) && Fit(m, i, F.Use, bound, On(w, |Reads(r)|))
    case If(c, _, _) => Fit(m, c, F.Use, bound, Span(w, {}, |Reads(c)|)) && FitBranches(m, e, bound, On(w, |Reads(c)|))
    case Match(s, arms) =>
      Fit(m, s, F.Use, bound, Span(w, ArmCarriers(arms), |Reads(s)|)) && FitArms(m, arms, bound, On(w, |Reads(s)|))
    case Return(v) => v.Some? ==> Fit(m, v.value, F.Moving, bound, w)
    case Lambda(_, _) => FitLambda(m, e, bound, w)
    case _ => true
  }

  predicate FitPath(m: Plan, segs: seq<string>, pos: F.Position, bound: set<string>, w: Where)
    requires segs != []
  {
    var x := segs[0];
    && (Stored(segs, pos) || FitRead(m, x, bound, w)) && (pos.Moving? && x in m.steady ==> x in m.copies)
    && (x in bound && |segs| == 1 && (pos.ForShared? || pos.ForMut?) ==> FitTake(m, Place(x, []), Kind(pos.ForMut?), w))
    && NoStarts(m, w.point, w.point + 1) && (pos.Moving? && x in bound && m.Owners() ==> MoveAt(x, w.point) in m.events)
    && (pos.Target? ==> Unguarded(m, {x}, w.point))
  }

  predicate FitCall(m: Plan, e: Expr, bound: set<string>, w: Where)
    requires e.Call? || e.MethodCall?
    decreases e, 0
  {
    var among := Amid(m, e, bound, w);
    && Fit(m, First(e), if e.Call? then F.Use else F.ForShared, bound, if Global(e, bound) then w.(carry := {}) else among)
    && if e.Call? then FitArgs(m, e.args, e.params, bound, On(among, |Reads(First(e))|))
       else FitAll(m, e.args, bound, On(among, |Reads(First(e))|))
  }

  predicate FitAssign(m: Plan, e: Expr, bound: set<string>, w: Where)
    requires e.Assign?
    decreases e, 0
  {
    && Fit(m, e.lhs, F.Target, bound, w.(carry := {}))
    && Fit(m, e.rhs, F.Use, bound, AfterTarget(m, e, bound, On(w, |Reads(e.lhs)|)))
  }

  predicate FitBorrow(m: Plan, e: Expr, bound: set<string>, w: Where)
    requires e.Borrow?
    decreases e, 0
  {
    var p := F.FullPlace(e.inner, bound);
    if p.Some? then
      && FitTake(m, p.value, Kind(e.mutable), w) && FitReads(m, Reads(e.inner), bound, w)
      && (m.Strict() ==> SteadyOperands(m, OperandNames(e.inner), bound))
      && NoStarts(m, w.point + 1, w.point + |Reads(e.inner)|)
    else Fit(m, e.inner, if e.mutable then F.ForMut else F.ForShared, bound, w)
  }

  predicate FitBranches(m: Plan, e: Expr, bound: set<string>, w: Where)
    requires e.If?
    decreases e, 0
  {
    NoCross(m, w.point, w.point + |ReadsBlock(e.thn)|) && FitBlock(m, e.thn, bound, w) && (e.els.Some? ==> Fit(m, e.els.value, F.Use, bound, On(w, |ReadsBlock(e.thn)|)))
  }

  predicate FitLambda(m: Plan, e: Expr, bound: set<string>, w: Where)
    requires e.Lambda?
    decreases e, 0
  {
    var bs, n := F.UnitBindings(e.inputs), |ReadsBlock(e.body)|;
    && NoCross(m, w.point, w.point + n) && Unguarded(m, Names(bs), w.point)
    && FreshNames(m, bs, false, bound) && FitBlock(m, e.body, bound + Names(bs), Span(w, {}, n)) && FitEnd(m, Names(bs), w.point + n)
    && FitCapture(m, ReadsBlock(e.body), ActsBlock(e.body), bound, w)
  }

  /** What a lambda captures is only read. */
  predicate FitCapture(m: Plan, names: seq<string>, acts: seq<Act>, bound: set<string>, w: Where) {
    var uses := Within(names, bound);
    && Harmless(acts, bound) && (m.Strict() ==> SteadyOperands(m, uses, bound))
    && FitReads(m, uses, bound, Mingling(m, w, F.NameSet(uses), bound, StoresOutside(acts, bound)))
  }

  predicate FitAll(m: Plan, es: seq<Expr>, bound: set<string>, w: Where)
    decreases es, 0
  {
    es == [] || (Fit(m, es[0], F.Use, bound, w) && FitAll(m, es[1..], bound, On(w, |Reads(es[0])|)))
  }

  predicate FitArgs(m: Plan, args: seq<Expr>, params: seq<Passing>, bound: set<string>, w: Where)
    decreases args, 0
  {
    args == []
    || (Fit(m, args[0], F.PositionOf(params), bound, w)
        && FitArgs(m, args[1..], if params == [] then [] else params[1..], bound, On(w, |Reads(args[0])|)))
  }

  predicate FitArms(m: Plan, arms: seq<Arm>, bound: set<string>, w: Where)
    decreases arms, 0
  {
    arms == [] || (FitArm(m, arms[0], bound, w) && FitArms(m, arms[1..], bound, On(w, |ReadsArm(arms[0])|)))
  }

  predicate FitArm(m: Plan, arm: Arm, bound: set<string>, w: Where)
    decreases arm, 0
  {
    var bs := F.Bindings(arm.pat);
    && NoCross(m, w.point, w.point + |ReadsArm(arm)|) && Unguarded(m, Names(bs), w.point)
    && arm.guard.None? && FreshNames(m, bs, false, bound) && Fit(m, arm.body, F.Use, bound + Names(bs), w)
    && FitEnd(m, Names(bs), w.point + |ReadsArm(arm)|)
  }

  predicate FitBlock(m: Plan, b: Block, bound: set<string>, w: Where)
    decreases b, 0
  {
    && FitStmts(m, b.stmts, bound, w)
    && (b.tail.Some? ==> Fit(m, b.tail.value, F.Use, bound + StmtsNames(b.stmts), On(w, |ReadsStmts(b.stmts)|)))
    && FitEnd(m, StmtsNames(b.stmts), w.point + |ReadsBlock(b)|)
  }

  predicate FitStmts(m: Plan, ss: seq<Stmt>, bound: set<string>, w: Where)
    decreases ss, 0
  {
    ss == [] || (FitStmt(m, ss[0], bound, w) && FitStmts(m, ss[1..], bound + StmtNames(ss[0]), On(w, |ReadsStmt(ss[0])|)))
  }

  predicate FitStmt(m: Plan, s: Stmt, bound: set<string>, w: Where)
    decreases s, 0
  {
    match s
    case Let(pat, init, _) =>
      && FreshNames(m, F.Bindings(pat), init.None?, bound) && Unguarded(m, PatNames(pat), w.point + |ReadsStmt(s)|)
      && (init.Some? ==> Fit(m, init.value, F.Use, bound, Span(w, PatCarriers(pat), |Reads(init.value)|).(pend := F.SingleName(pat))))
    case ExprStmt(e) => Fit(m, e, F.Use, bound, Span(w, {}, |Reads(e)|))
  }
}
