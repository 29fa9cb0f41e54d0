/** The borrow-checking walk over a body, step by step on a value of its state. */
module Flow {
  import opened Wrappers
  import opened Hir
  import opened Places
  import opened Nll

  datatype Ownership = Owned | Moved | Borrowed(count: nat) | BorrowedMut | Uninit

  datatype Local = Local(state: Ownership, mutable: bool, copy: bool, reference: bool)

  datatype BorrowKind = Shared | Mut

  /** A live borrow; `borrower` is the local that holds the reference. */
  datatype Loan = Loan(place: Place, kind: BorrowKind, borrower: Option<string>)

  type Locals = map<string, Local>
  type Ledger = seq<Loan>

  datatype Diag =
    | UseAfterMove(x: string)
    | UseOfUninit(x: string)
    | BorrowAfterMove(x: string)
    | TwoMutBorrows(x: string)
    | MutBorrowWhileShared(x: string)
    | SharedBorrowWhileMut(x: string)
    | MutBorrowOfImmut(x: string)
    | AssignToImmut(x: string)
    | MoveOutOfBorrow(x: string)
    | CannotMoveBorrowed(x: string)
    | BorrowOutlivesOwner(x: string)
    | MoveOutOfRef

  datatype Position = Use | Moving | ForShared | ForMut | Target

  datatype Cx = Cx(locals: Locals, scopes: seq<seq<string>>, ledger: Ledger, lastUse: map<string, nat>,
                   point: nat, pending: Option<string>, diag: seq<Diag>)

  // ----- the ledger -----

  predicate HeldBy(r: Loan, names: set<string>) { r.borrower.Some? && r.borrower.value in names }

  function Without(ledger: Ledger, names: set<string>): (out: Ledger)
    ensures forall r :: r in out <==> r in ledger && !HeldBy(r, names)
  {
    if ledger == [] then []
    else (if HeldBy(ledger[0], names) then [] else [ledger[0]]) + Without(ledger[1..], names)
  }

  function Held(ledger: Ledger, names: set<string>): (out: Ledger)
    ensures forall r :: r in out <==> r in ledger && HeldBy(r, names)
  {
    if ledger == [] then []
    else (if HeldBy(ledger[0], names) then [ledger[0]] else []) + Held(ledger[1..], names)
  }

  function NotRootedIn(ledger: Ledger, names: set<string>): (out: Ledger)
    ensures forall r :: r in out <==> r in ledger && r.place.root !in names
  {
    if ledger == [] then []
    else (if ledger[0].place.root in names then [] else [ledger[0]]) + NotRootedIn(ledger[1..], names)
  }

  /** Records present on either side, each once. */
  function AddNew(out: Ledger, more: Ledger): (r: Ledger)
    ensures forall x :: x in r <==> x in out || x in more
    decreases |more|
  {
    if more == [] then out
    else AddNew(if more[0] in out then out else out + [more[0]], more[1..])
  }

  function JoinLedgers(a: Ledger, b: Ledger): (r: Ledger)
    ensures forall x :: x in r <==> x in a || x in b
  {
    AddNew(AddNew([], a), b)
  }

  // ----- local states -----

  function JoinState(a: Ownership, b: Ownership): Ownership {
    if a.Moved? || b.Moved? then Moved
    else if a.Uninit? || b.Uninit? then Uninit
    else if a.BorrowedMut? || b.BorrowedMut? then BorrowedMut
    else if a.Borrowed? && b.Borrowed? then Borrowed(if a.count < b.count then b.count else a.count)
    else a
  }

  function JoinLocals(a: Locals, b: Locals): Locals {
    map x | x in a.Keys + b.Keys ::
      if x in a && x in b then a[x].(state := JoinState(a[x].state, b[x].state))
      else if x in a then a[x] else b[x]
  }

  function CountShared(ledger: Ledger, root: string): nat {
    if ledger == [] then 0
    else (if ledger[0].place.root == root && ledger[0].kind == Shared then 1 else 0) + CountShared(ledger[1..], root)
  }

  /** Brings a root's borrow state in line with the ledger. */
  function Recompute(locals: Locals, ledger: Ledger, root: string): (r: Locals)
    ensures Refreshed(locals, r)
  {
    if root !in locals || locals[root].state.Moved? || locals[root].state.Uninit? then locals
    else
      var hasMut := exists r :: r in ledger && r.place.root == root && r.kind == Mut;
      var n := CountShared(ledger, root);
      locals[root := locals[root].(state := if hasMut then BorrowedMut else if n > 0 then Borrowed(n) else Owned)]
  }

  function RecomputeAll(locals: Locals, ledger: Ledger, removed: Ledger): (r: Locals)
    ensures Refreshed(locals, r)
    decreases |removed|
  {
    if removed == [] then locals
    else RecomputeAll(Recompute(locals, ledger, removed[0].place.root), ledger, removed[1..])
  }

  /** Same locals, same declarations, same moved and uninitialised ones. */
  ghost predicate Refreshed(a: Locals, b: Locals) {
    a.Keys == b.Keys && forall x :: x in a ==> SameButBorrows(a[x], b[x])
  }

  predicate SameButBorrows(a: Local, b: Local) {
    && a.mutable == b.mutable && a.copy == b.copy && a.reference == b.reference
    && (a.state.Moved? <==> b.state.Moved?) && (a.state.Uninit? <==> b.state.Uninit?)
  }

  // ----- frames and bindings -----

  function Push(cx: Cx): Cx { cx.(scopes := cx.scopes + [[]]) }

  function NameSet(names: seq<string>): set<string> { set x | x in names }

  /** A record whose owner departs while its borrower stays. */
  predicate Outlives(r: Loan, departing: set<string>) {
    r.place.root in departing && r.borrower.Some? && r.borrower.value !in departing
  }

  function OutlivesDiags(ledger: Ledger, departing: set<string>): seq<Diag> {
    if ledger == [] then []
    else (if Outlives(ledger[0], departing) then [BorrowOutlivesOwner(ledger[0].place.root)] else [])
         + OutlivesDiags(ledger[1..], departing)
  }

  function Pop(cx: Cx): (r: Cx)
    requires cx.scopes != []
    ensures Framed(cx, r) && r.scopes == cx.scopes[..|cx.scopes| - 1] && r.point == cx.point
  {
    var names := NameSet(cx.scopes[|cx.scopes| - 1]);
    var kept := Without(cx.ledger, names);
    var locals := RecomputeAll(cx.locals, kept, Held(cx.ledger, names));
    Cx(locals - names, cx.scopes[..|cx.scopes| - 1], NotRootedIn(kept, names), cx.lastUse, cx.point, cx.pending,
       cx.diag + OutlivesDiags(cx.ledger, names))
  }

  function Bind(cx: Cx, name: string, local: Local): Cx {
    var n := |cx.scopes|;
    cx.(locals := cx.locals[name := local],
        scopes := if n == 0 then cx.scopes else cx.scopes[n - 1 := cx.scopes[n - 1] + [name]])
  }

  function BindAll(cx: Cx, bs: seq<Binding>, mutable: bool): Cx
    decreases |bs|
  {
    if bs == [] then cx
    else BindAll(Bind(cx, bs[0].name, Local(Owned, mutable, bs[0].copy, bs[0].reference)), bs[1..], mutable)
  }

  /** `let` without a value: the recorded type is Unit, hence Copy. */
  function BindUninit(cx: Cx, bs: seq<Binding>, mutable: bool): Cx
    decreases |bs|
  {
    if bs == [] then cx
    else BindUninit(Bind(cx, bs[0].name, Local(Uninit, mutable, true, false)), bs[1..], mutable)
  }

  // ----- patterns -----

  predicate CopyTy(t: Ty) {
    match t
    case UnitTy => true
    case PlainTy(copy) => copy
    case RefTy(mutable, _) => !mutable
    case TupleTy(parts) => CopyTys(parts)
  }

  predicate CopyTys(ts: seq<Ty>) { ts == [] || (CopyTy(ts[0]) && CopyTys(ts[1..])) }

  function BindingOf(name: string, ty: Ty, actual: Real): Binding {
    Binding(name, CopyTy(ty), ty.RefTy?, actual.copy, actual.reference, actual.reference || actual.carries)
  }

  /** The names a pattern binds, in order, with the types that reach them: parts of
      a tuple and the target of a reference are followed, everything below a
      struct or an enum is taken for Unit. */
  function Descend(p: Shape, ty: Ty): seq<Binding>
    decreases p
  {
    match p
    case NameShape(name, actual, sub) =>
      [BindingOf(name, ty, actual)] + (if sub.None? then [] else Descend(sub.value, ty))
    case TupleShape(xs) => DescendAll(xs, if ty.TupleTy? then ty.parts else [])
    case StructShape(fields) => DescendFields(fields)
    case EnumShape(args) => DescendAll(args, [])
    case RefShape(inner) => Descend(inner, if ty.RefTy? then ty.inner else UnitTy)
    case Silent => []
  }

  function FirstTy(tys: seq<Ty>): Ty { if tys == [] then UnitTy else tys[0] }

  function RestTys(tys: seq<Ty>): seq<Ty> { if tys == [] then [] else tys[1..] }

  function DescendAll(ps: seq<Shape>, tys: seq<Ty>): seq<Binding>
    decreases ps
  {
    if ps == [] then [] else Descend(ps[0], FirstTy(tys)) + DescendAll(ps[1..], RestTys(tys))
  }

  function DescendFields(fs: seq<FieldShape>): seq<Binding>
    decreases fs
  {
    if fs == [] then [] else DescendField(fs[0]) + DescendFields(fs[1..])
  }

  function DescendField(f: FieldShape): seq<Binding>
    decreases f
  {
    if f.sub.None? then [BindingOf(f.name, UnitTy, f.actual)] else Descend(f.sub.value, UnitTy)
  }

  function Bindings(p: Pattern): seq<Binding> { Descend(p.shape, p.ty) }

  /** Lambda parameters are taken for Unit. */
  function UnitBindings(params: seq<Param>): seq<Binding> {
    if params == [] then [] else [BindingOf(params[0].name, UnitTy, params[0].actual)] + UnitBindings(params[1..])
  }

  function SingleName(p: Pattern): Option<string> {
    if p.shape.NameShape? && p.shape.sub.None? then Some(p.shape.name) else None
  }

  // ----- events -----

  /** What no step of the walk touches, and what it only adds to. */
  ghost predicate Framed(cx: Cx, r: Cx) {
    r.pending == cx.pending && r.lastUse == cx.lastUse && cx.diag <= r.diag
  }

  ghost predicate Stepped(cx: Cx, r: Cx) {
    Framed(cx, r) && r.scopes == cx.scopes && r.point == cx.point
  }

  function Report(cx: Cx, d: Diag): Cx { cx.(diag := cx.diag + [d]) }

  function DoUse(cx: Cx, x: string): (r: Cx)
    ensures Stepped(cx, r)
  {
    if x !in cx.locals then cx
    else match cx.locals[x].state
      case Moved => Report(cx, UseAfterMove(x))
      case Uninit => Report(cx, UseOfUninit(x))
      case _ => cx
  }

  function DoMove(cx: Cx, x: string): (r: Cx)
    ensures Stepped(cx, r)
  {
    if x !in cx.locals then cx
    else
      var sub := exists r :: r in cx.ledger && r.place.root == x && r.place.projs != [];
      var whole := exists r :: r in cx.ledger && r.place.root == x && r.place.projs == [];
      match cx.locals[x].state
      case Moved => Report(cx, UseAfterMove(x))
      case Uninit => Report(cx, UseOfUninit(x))
      case Owned =>
        var cx1 := if sub then Report(cx, MoveOutOfBorrow(x)) else cx;
        if cx.locals[x].copy then cx1 else cx1.(locals := cx1.locals[x := cx1.locals[x].(state := Moved)])
      case _ => Report(cx, if sub && !whole then MoveOutOfBorrow(x) else CannotMoveBorrowed(x))
  }

  function DoAssign(cx: Cx, x: string): (r: Cx)
    ensures Stepped(cx, r)
  {
    if x !in cx.locals then cx
    else
      var cx1 := if cx.locals[x].mutable then cx else Report(cx, AssignToImmut(x));
      cx1.(locals := cx1.locals[x := cx1.locals[x].(state := Owned)])
  }

  predicate AnyOverlap(ledger: Ledger, place: Place, kind: BorrowKind) {
    exists r :: r in ledger && Overlaps(r.place, place) && r.kind == kind
  }

  /** The classification of a new borrow against the live ones. */
  function Conflict(ledger: Ledger, place: Place, kind: BorrowKind): seq<Diag> {
    if kind == Mut && AnyOverlap(ledger, place, Mut) then [TwoMutBorrows(place.root)]
    else if kind == Mut && AnyOverlap(ledger, place, Shared) then [MutBorrowWhileShared(place.root)]
    else if kind == Shared && AnyOverlap(ledger, place, Mut) then [SharedBorrowWhileMut(place.root)]
    else []
  }

  function AfterBorrow(state: Ownership, kind: BorrowKind): Ownership {
    match (state, kind)
    case (Owned, Shared) => Borrowed(1)
    case (Borrowed(n), Shared) => Borrowed(n + 1)
    case (Owned, Mut) => BorrowedMut
    case _ => state
  }

  /** A moved or uninitialised root refuses the borrow outright. */
  function Refusal(cx: Cx, root: string): seq<Diag> {
    if root !in cx.locals then []
    else if cx.locals[root].state.Moved? then [BorrowAfterMove(root)]
    else if cx.locals[root].state.Uninit? then [UseOfUninit(root)]
    else []
  }

  /** `try_place_borrow`. */
  function TryBorrow(cx: Cx, place: Place, kind: BorrowKind): (r: Cx)
    ensures Stepped(cx, r)
  {
    var x := place.root;
    var cx1 := if kind == Mut && x in cx.locals && !cx.locals[x].mutable then Report(cx, MutBorrowOfImmut(x)) else cx;
    var refusal := Refusal(cx, x);
    if refusal != [] then cx1.(diag := cx1.diag + refusal)
    else
      cx1.(diag := cx1.diag + Conflict(cx.ledger, place, kind),
           ledger := cx1.ledger + [Loan(place, kind, cx.pending)],
           locals := if x in cx.locals
                     then cx1.locals[x := cx1.locals[x].(state := AfterBorrow(cx1.locals[x].state, kind))]
                     else cx1.locals)
  }

  function DoBorrow(cx: Cx, x: string, kind: BorrowKind): (r: Cx)
    ensures Stepped(cx, r)
  {
    if x in cx.locals && cx.locals[x].reference then DoUse(cx, x) else TryBorrow(cx, Place(x, []), kind)
  }

  /** After a read: the borrows held by a name end at its last use. */
  function DecayAfterUse(cx: Cx, x: string): (r: Cx)
    ensures Stepped(cx, r)
  {
    if x in cx.lastUse && cx.point > cx.lastUse[x] then
      var kept := Without(cx.ledger, {x});
      cx.(ledger := kept, locals := RecomputeAll(cx.locals, kept, Held(cx.ledger, {x})))
    else cx
  }

  function Advance(cx: Cx): Cx { cx.(point := cx.point + 1) }

  /** A bare local in a given position. */
  function Touch(cx: Cx, x: string, pos: Position): (r: Cx)
    ensures Stepped(cx, r)
  {
    match pos
    case Use => DoUse(cx, x)
    case Moving => DoMove(cx, x)
    case ForShared => DoBorrow(cx, x, Shared)
    case ForMut => DoBorrow(cx, x, Mut)
    case Target => DoAssign(cx, x)
  }

  /** A dotted path whose first segment is a local. */
  function TouchPart(cx: Cx, x: string, pos: Position): (r: Cx)
    ensures Stepped(cx, r)
  {
    match pos
    case Moving => DoMove(cx, x)
    case Target =>
      if x in cx.locals && !cx.locals[x].mutable then Report(cx, AssignToImmut(x)) else cx
    case _ => DoUse(cx, x)
  }

  function TouchPath(cx: Cx, segs: seq<string>, pos: Position): (r: Cx)
    requires segs != []
    ensures Stepped(cx, r)
  {
    if segs[0] !in cx.locals then cx
    else if |segs| == 1 then Touch(cx, segs[0], pos) else TouchPart(cx, segs[0], pos)
  }

  function WalkPath(cx: Cx, segs: seq<string>, pos: Position): (r: Cx)
    ensures Framed(cx, r) && r.scopes == cx.scopes
    ensures r.point == cx.point + if segs == [] then 0 else 1
  {
    if segs == [] then cx else DecayAfterUse(TouchPath(Advance(cx), segs, pos), segs[0])
  }

  // ----- places -----

  function Fields(names: seq<string>): seq<Proj> {
    seq(|names|, i requires 0 <= i < |names| => FieldOf(names[i]))
  }

  /** `expr_as_place`: truncated at every step. */
  function PlaceOf(e: Expr, bound: set<string>): Option<Place> {
    match e
    case Path(segs) =>
      if segs == [] || segs[0] !in bound then None else Some(Truncate(Place(segs[0], Fields(segs[1..]))))
    case Field(r, name) => Projected(PlaceOf(r, bound), FieldOf(name))
    case Unary(true, _, r) => Projected(PlaceOf(r, bound), DerefOf)
    case Index(r, _) => Projected(PlaceOf(r, bound), AnyIndex)
    case _ => None
  }

  function Projected(p: Option<Place>, proj: Proj): Option<Place> {
    if p.None? then None else Some(Truncate(Extend(p.value, proj)))
  }

  /** The place with all its projections. */
  function FullPlace(e: Expr, bound: set<string>): Option<Place> {
    match e
    case Path(segs) => if segs == [] || segs[0] !in bound then None else Some(Place(segs[0], Fields(segs[1..])))
    case Field(r, name) => var p := FullPlace(r, bound); if p.None? then None else Some(Extend(p.value, FieldOf(name)))
    case Unary(true, _, r) => var p := FullPlace(r, bound); if p.None? then None else Some(Extend(p.value, DerefOf))
    case Index(r, _) => var p := FullPlace(r, bound); if p.None? then None else Some(Extend(p.value, AnyIndex))
    case _ => None
  }

  /** The step-by-step truncation is the truncation of the full path. */
  lemma {:induction false} PlaceIsTruncated(e: Expr, bound: set<string>)
    ensures PlaceOf(e, bound).Some? <==> FullPlace(e, bound).Some?
    ensures PlaceOf(e, bound).Some? ==> PlaceOf(e, bound).value == Truncate(FullPlace(e, bound).value)
    ensures FullPlace(e, bound).Some? ==> FullPlace(e, bound).value.root in bound
    decreases e
  {
    match e
    case Field(r, name) =>
      PlaceIsTruncated(r, bound);
      if PlaceOf(r, bound).Some? { TruncateStepwise(FullPlace(r, bound).value, FieldOf(name)); }
    case Unary(true, _, r) =>
      PlaceIsTruncated(r, bound);
      if PlaceOf(r, bound).Some? { TruncateStepwise(FullPlace(r, bound).value, DerefOf); }
    case Index(r, _) =>
      PlaceIsTruncated(r, bound);
      if PlaceOf(r, bound).Some? { TruncateStepwise(FullPlace(r, bound).value, AnyIndex); }
    case _ =>
  }

  /** `walk_for_points_only`: points and decay, nothing else. */
  function PointsOnly(e: Expr, cx: Cx): (r: Cx)
    ensures Framed(cx, r) && r.scopes == cx.scopes && r.diag == cx.diag
    ensures Visible(e) <==> r.point == cx.point + |Reads(e)|
    ensures r.point <= cx.point + |Reads(e)|
    decreases e
  {
    match e
    case Path(segs) => if segs == [] then cx else DecayAfterUse(Advance(cx), segs[0])
    case Field(r, _) => PointsOnly(r, cx)
    case Unary(_, _, r) => PointsOnly(r, cx)
    case Index(r, i) => PointsOnly(i, PointsOnly(r, cx))
    case _ => cx
  }

  /** The shapes in which the points-only walk sees every read: nothing is read
      below any other kind of expression. */
  predicate Visible(e: Expr) {
    match e
    case Path(_) => true
    case Field(r, _) => Visible(r)
    case Unary(_, _, r) => Visible(r)
    case Index(r, i) => Visible(r) && Visible(i)
    case _ => Reads(e) == []
  }

  predicate PlaceShaped(e: Expr) {
    match e
    case Path(segs) => segs != []
    case Field(r, _) => PlaceShaped(r)
    case Unary(true, _, r) => PlaceShaped(r)
    case Index(r, _) => PlaceShaped(r)
    case _ => false
  }

  /** Loop-free, and every borrowed place is visible. */
  predicate Clean(e: Expr)
    decreases e
  {
    match e
    case Path(_) => true
    case Literal => true
    case BlockExpr(b) => CleanBlock(b)
    case Tuple(xs) => CleanAll(xs)
    case Binary(l, r) => Clean(l) && Clean(r)
    case Assign(_, _, l, r) => Clean(l) && Clean(r)
    case Unary(_, _, r) => Clean(r)
    case Borrow(_, inner) => Clean(inner) && (PlaceShaped(inner) ==> Visible(inner))
    case Move(inner) => Clean(inner)
    case Call(c, _, args) => Clean(c) && CleanAll(args)
    case MethodCall(r, args) => Clean(r) && CleanAll(args)
    case Field(r, _) => Clean(r)
    case Index(r, i) => Clean(r) && Clean(i)
    case If(c, thn, els) => Clean(c) && CleanBlock(thn) && (els.Some? ==> Clean(els.value))
    case Match(s, arms) => Clean(s) && CleanArms(arms)
    case Return(v) => v.Some? ==> Clean(v.value)
    case Lambda(_, body) => CleanBlock(body)
    case _ => false
  }

  predicate CleanAll(es: seq<Expr>)
    decreases es
  {
    es == [] || (Clean(es[0]) && CleanAll(es[1..]))
  }

  predicate CleanArms(arms: seq<Arm>)
    decreases arms
  {
    arms == [] || (CleanArm(arms[0]) && CleanArms(arms[1..]))
  }

  predicate CleanArm(arm: Arm)
    decreases arm
  {
    (arm.guard.Some? ==> Clean(arm.guard.value)) && Clean(arm.body)
  }

  predicate CleanBlock(b: Block)
    decreases b
  {
    CleanStmts(b.stmts) && (b.tail.Some? ==> Clean(b.tail.value))
  }

  predicate CleanStmts(ss: seq<Stmt>)
    decreases ss
  {
    ss == [] || (CleanStmt(ss[0]) && CleanStmts(ss[1..]))
  }

  predicate CleanStmt(s: Stmt)
    decreases s
  {
    match s
    case Let(_, init, _) => init.Some? ==> Clean(init.value)
    case ExprStmt(e) => Clean(e)
  }

  // ----- the walk -----

  function Walk(e: Expr, pos: Position, cx: Cx): (r: Cx)
    ensures Framed(cx, r) && r.scopes == cx.scopes
    ensures Clean(e) ==> r.point == cx.point + |Reads(e)|
    decreases e, 1, 0
  {
    match e
    case Path(segs) => WalkPath(cx, segs, pos)
    case Literal => cx
    case BlockExpr(b) => WalkBlock(b, cx)
    case Tuple(xs) => WalkAll(xs, cx)
    case Binary(_, _) => WalkTwo(e, cx)
    case Assign(_, _, _, _) => WalkAssign(e, cx)
    case Unary(_, _, _) => WalkUnary(e, pos, cx)
    case Borrow(_, _) => WalkBorrow(e, cx)
    case Move(_) => WalkMove(e, cx)
    case Call(_, _, _) => WalkCall(e, cx)
    case MethodCall(_, _) => WalkCall(e, cx)
    case Field(r, _) => Walk(r, Use, cx)
    case Index(_, _) => WalkTwo(e, cx)
    case If(_, _, _) => WalkIf(e, cx)
    case Match(_, _) => WalkMatch(e, cx)
    case For(_, _, _) => WalkLoop(e, cx)
    case While(_, _) => WalkLoop(e, cx)
    case Loop(_) => WalkLoop(e, cx)
    case Return(v) => if v.None? then cx else Walk(v.value, Moving, cx)
    case Lambda(_, _) => WalkLambda(e, cx)
  }

  /** Reading through a reference to a non-Copy value would move it out. */
  function DerefMove(cx: Cx, e: Expr): (r: Cx)
    requires e.Unary?
    ensures Stepped(cx, r)
  {
    if e.deref && e.owning then Report(cx, MoveOutOfRef) else cx
  }

  function WalkUnary(e: Expr, pos: Position, cx: Cx): (r: Cx)
    requires e.Unary?
    ensures Framed(cx, r) && r.scopes == cx.scopes
    ensures Clean(e) ==> r.point == cx.point + |Reads(e)|
    decreases e, 0, 0
  {
    Walk(e.operand, Use, if pos.Use? then DerefMove(cx, e) else cx)
  }

  function WalkTwo(e: Expr, cx: Cx): (r: Cx)
    requires e.Binary? || e.Index?
    ensures Framed(cx, r) && r.scopes == cx.scopes
    ensures Clean(e) ==> r.point == cx.point + |Reads(e)|
    decreases e, 0, 0
  {
    if e.Binary? then Walk(e.rhs, Use, Walk(e.lhs, Use, cx)) else Walk(e.idx, Use, Walk(e.receiver, Use, cx))
  }

  /** Arguments go by the callee's signature; a method's receiver is borrowed. */
  function WalkCall(e: Expr, cx: Cx): (r: Cx)
    requires e.Call? || e.MethodCall?
    ensures Framed(cx, r) && r.scopes == cx.scopes
    ensures Clean(e) ==> r.point == cx.point + |Reads(e)|
    decreases e, 0, 0
  {
    if e.Call? then WalkArgs(e.args, e.params, Walk(e.callee, Use, cx))
    else WalkAll(e.args, Walk(e.receiver, ForShared, cx))
  }

  /** A plain `x = ..` names the borrower of what the right side borrows. */
  function WalkAssign(e: Expr, cx: Cx): (r: Cx)
    requires e.Assign?
    ensures Framed(cx, r) && r.scopes == cx.scopes
    ensures Clean(e) ==> r.point == cx.point + |Reads(e)|
    decreases e, 0, 0
  {
    var cx1 := Walk(e.lhs, Target, cx);
    if !e.compound && e.lhs.Path? && |e.lhs.segs| == 1 then
      Walk(e.rhs, Use, cx1.(pending := Some(e.lhs.segs[0]))).(pending := cx.pending)
    else Walk(e.rhs, Use, cx1)
  }

  function WalkBorrow(e: Expr, cx: Cx): (r: Cx)
    requires e.Borrow?
    ensures Framed(cx, r) && r.scopes == cx.scopes
    ensures Clean(e) ==> r.point == cx.point + |Reads(e)|
    decreases e, 0, 0
  {
    PlaceIsTruncated(e.inner, cx.locals.Keys);
    PlacesAreShaped(e.inner, cx.locals.Keys);
    match PlaceOf(e.inner, cx.locals.Keys)
    case Some(p) => PointsOnly(e.inner, TryBorrow(cx, p, if e.mutable then Mut else Shared))
    case None => Walk(e.inner, if e.mutable then ForMut else ForShared, cx)
  }

  /** `move *r` reads `r`, which must not own what it points to; any other operand
      is moved. */
  function WalkMove(e: Expr, cx: Cx): (r: Cx)
    requires e.Move?
    ensures Framed(cx, r) && r.scopes == cx.scopes
    ensures Clean(e) ==> r.point == cx.point + |Reads(e)|
    decreases e, 0, 0
  {
    if e.inner.Unary? && e.inner.deref then
      assert Reads(e.inner) == Reads(e.inner.operand) && (Clean(e.inner) ==> Clean(e.inner.operand));
      Walk(e.inner.operand, Use, DerefMove(cx, e.inner))
    else Walk(e.inner, Moving, cx)
  }

  /** Both branches start from the state after the condition; the join keeps
      the records of either. */
  function WalkIf(e: Expr, cx: Cx): (r: Cx)
    requires e.If?
    ensures Framed(cx, r) && r.scopes == cx.scopes
    ensures Clean(e) ==> r.point == cx.point + |Reads(e)|
    decreases e, 0, 1
  {
    WalkBranches(e, Walk(e.cond, Use, cx))
  }

  function WalkBranches(e: Expr, cx: Cx): (r: Cx)
    requires e.If?
    ensures Framed(cx, r) && r.scopes == cx.scopes
    ensures CleanBlock(e.thn) && (e.els.Some? ==> Clean(e.els.value))
            ==> r.point == cx.point + |ReadsBlock(e.thn)| + if e.els.None? then 0 else |Reads(e.els.value)|
    decreases e, 0, 0
  {
    var cx1 := WalkBlock(e.thn, cx);
    var cx2 := Restart(cx1, cx);
    var cx3 := if e.els.None? then cx2 else Walk(e.els.value, Use, cx2);
    JoinInto(cx3, cx1)
  }

  /** The second state with both states and ledgers joined in. */
  function JoinInto(cx: Cx, other: Cx): Cx {
    cx.(locals := JoinLocals(cx.locals, other.locals), ledger := JoinLedgers(cx.ledger, other.ledger))
  }

  function WalkMatch(e: Expr, cx: Cx): (r: Cx)
    requires e.Match?
    ensures Framed(cx, r) && r.scopes == cx.scopes
    ensures Clean(e) ==> r.point == cx.point + |Reads(e)|
    decreases e, 0, 0
  {
    var cx1 := Walk(e.scrutinee, Use, cx);
    WalkArms(e.arms, cx1, true, cx1)
  }

  function WalkLoop(e: Expr, cx: Cx): (r: Cx)
    requires e.For? || e.While? || e.Loop?
    ensures Framed(cx, r) && r.scopes == cx.scopes
    decreases e, 0, 0
  {
    var cx1 := if e.For? then Walk(e.iter, Use, cx) else if e.While? then Walk(e.cond, Use, cx) else cx;
    LoopFix(if e.For? then Some(e.pat) else None, e.body, cx1.locals, cx1.ledger, |cx1.ledger|, 16, cx1)
  }

  function WalkLambda(e: Expr, cx: Cx): (r: Cx)
    requires e.Lambda?
    ensures Framed(cx, r) && r.scopes == cx.scopes
    ensures Clean(e) ==> r.point == cx.point + |Reads(e)|
    decreases e, 0, 0
  {
    assert Reads(e) == ReadsBlock(e.body) && Clean(e) == CleanBlock(e.body);
    var cx1 := WalkScope(UnitBindings(e.inputs), e.body, cx);
    Restart(cx1, cx)
  }

  function WalkAll(es: seq<Expr>, cx: Cx): (r: Cx)
    ensures Framed(cx, r) && r.scopes == cx.scopes
    ensures CleanAll(es) ==> r.point == cx.point + |ReadsAll(es)|
    decreases es, 1, 0
  {
    if es == [] then cx else WalkAll(es[1..], Walk(es[0], Use, cx))
  }

  function PositionOf(params: seq<Passing>): Position {
    if params == [] then Use
    else match params[0] case ByMut => ForMut case ByRef => ForShared case ByValue => Use
  }

  function WalkArgs(args: seq<Expr>, params: seq<Passing>, cx: Cx): (r: Cx)
    ensures Framed(cx, r) && r.scopes == cx.scopes
    ensures CleanAll(args) ==> r.point == cx.point + |ReadsAll(args)|
    decreases args, 1, 0
  {
    if args == [] then cx
    else WalkArgs(args[1..], if params == [] then [] else params[1..], Walk(args[0], PositionOf(params), cx))
  }

  function WalkArm(arm: Arm, cx: Cx): (r: Cx)
    ensures Framed(cx, r) && r.scopes == cx.scopes
    ensures CleanArm(arm) ==> r.point == cx.point + |ReadsArm(arm)|
    decreases arm, 1, 0
  {
    var cx1 := BindAll(Push(cx), Bindings(arm.pat), false);
    BindFrames(Push(cx), Bindings(arm.pat), false);
    var cx2 := if arm.guard.None? then cx1 else Walk(arm.guard.value, Use, cx1);
    var cx3 := Walk(arm.body, Use, cx2);
    PopRestores(cx, cx3);
    Pop(cx3)
  }

  /** The state an arm starts in. */
  function Restart(cx: Cx, base: Cx): Cx { cx.(locals := base.locals, ledger := base.ledger) }

  /** The state after an arm: the first one stands, a later one is joined in. */
  function Merge(first: bool, cx: Cx, arm: Cx): Cx {
    if first then arm
    else arm.(locals := JoinLocals(cx.locals, arm.locals), ledger := JoinLedgers(cx.ledger, arm.ledger))
  }

  /** The remaining arms, all started from `base`; `cx` holds the join so far. */
  function WalkArms(arms: seq<Arm>, base: Cx, first: bool, cx: Cx): (r: Cx)
    ensures Framed(cx, r) && r.scopes == cx.scopes
    ensures CleanArms(arms) ==> r.point == cx.point + |ReadsArms(arms)|
    decreases arms, 1, 0
  {
    if arms == [] then cx
    else WalkArms(arms[1..], base, false, Merge(first, cx, WalkArm(arms[0], Restart(cx, base))))
  }

  /** One pass over a loop body. */
  function LoopOnce(pat: Option<Pattern>, body: Block, cx: Cx): (r: Cx)
    ensures Framed(cx, r) && r.scopes == cx.scopes
    decreases body, 1, 0
  {
    if pat.None? then WalkBlock(body, cx) else WalkScope(Bindings(pat.value), body, cx)
  }

  /** A block inside a frame of its own names. */
  function WalkScope(bs: seq<Binding>, body: Block, cx: Cx): (r: Cx)
    ensures Framed(cx, r) && r.scopes == cx.scopes
    ensures CleanBlock(body) ==> r.point == cx.point + |ReadsBlock(body)|
    decreases body, 0, 1
  {
    BindFrames(Push(cx), bs, false);
    var cx1 := WalkBlock(body, BindAll(Push(cx), bs, false));
    PopRestores(cx, cx1);
    Pop(cx1)
  }

  /** One pass, joined with the state before the loop. */
  function LoopStep(pat: Option<Pattern>, body: Block, locals: Locals, ledger: Ledger, cx: Cx): (r: Cx)
    ensures Framed(cx, r) && r.scopes == cx.scopes
    decreases body, 1, 1
  {
    var cx1 := LoopOnce(pat, body, cx);
    cx1.(locals := JoinLocals(locals, cx1.locals), ledger := JoinLedgers(ledger, cx1.ledger))
  }

  /** `loop_fixed_point`: up to 16 passes until the record count settles, then
      one more. */
  function LoopFix(pat: Option<Pattern>, body: Block, locals: Locals, ledger: Ledger, prev: nat, left: nat, cx: Cx): (r: Cx)
    ensures Framed(cx, r) && r.scopes == cx.scopes
    decreases body, 2, left
  {
    var cx1 := LoopStep(pat, body, locals, ledger, cx);
    if left == 0 || |cx1.ledger| == prev then cx1
    else LoopFix(pat, body, locals, ledger, |cx1.ledger|, left - 1, cx1)
  }

  function WalkBlock(b: Block, cx: Cx): (r: Cx)
    ensures Framed(cx, r) && r.scopes == cx.scopes
    ensures CleanBlock(b) ==> r.point == cx.point + |ReadsBlock(b)|
    decreases b, 0, 0
  {
    var cx1 := WalkStmts(b.stmts, Push(cx));
    var cx2 := if b.tail.None? then cx1 else Walk(b.tail.value, Use, cx1);
    PopRestores(cx, cx2);
    Pop(cx2)
  }

  /** Statements only add names to the innermost frame. */
  ghost predicate InnerGrew(a: seq<seq<string>>, b: seq<seq<string>>) {
    |a| == |b| && (a != [] ==> a[..|a| - 1] == b[..|a| - 1] && a[|a| - 1] <= b[|a| - 1])
  }

  /** Frames are pushed and popped in balance. */
  lemma PopRestores(cx: Cx, inner: Cx)
    requires Framed(cx, inner) && InnerGrew(Push(cx).scopes, inner.scopes)
    ensures inner.scopes != [] && Pop(inner).scopes == cx.scopes && Framed(cx, Pop(inner))
  {
    assert Push(cx).scopes[..|cx.scopes|] == cx.scopes;
  }

  function WalkStmts(ss: seq<Stmt>, cx: Cx): (r: Cx)
    ensures Framed(cx, r) && InnerGrew(cx.scopes, r.scopes)
    ensures CleanStmts(ss) ==> r.point == cx.point + |ReadsStmts(ss)|
    decreases ss, 1, 0
  {
    if ss == [] then cx else WalkStmts(ss[1..], WalkStmt(ss[0], cx))
  }

  function WalkStmt(s: Stmt, cx: Cx): (r: Cx)
    ensures Framed(cx, r) && InnerGrew(cx.scopes, r.scopes)
    ensures CleanStmt(s) ==> r.point == cx.point + |ReadsStmt(s)|
    decreases s, 1, 0
  {
    match s
    case Let(pat, init, mutable) =>
      if init.None? then
        BindFrames(cx, Bindings(pat), mutable);
        BindUninit(cx, Bindings(pat), mutable)
      else
        var cx1 := Walk(init.value, Use, cx.(pending := SingleName(pat))).(pending := cx.pending);
        BindFrames(cx1, Bindings(pat), mutable);
        BindAll(cx1, Bindings(pat), mutable)
    case ExprStmt(e) => Walk(e, Use, cx)
  }

  lemma {:induction false} BindFrames(cx: Cx, bs: seq<Binding>, mutable: bool)
    ensures var r := BindAll(cx, bs, mutable); Framed(cx, r) && InnerGrew(cx.scopes, r.scopes) && r.point == cx.point
    ensures var r := BindUninit(cx, bs, mutable); Framed(cx, r) && InnerGrew(cx.scopes, r.scopes) && r.point == cx.point
    decreases |bs|
  {
    if bs != [] {
      var b := bs[0];
      BindFrames(Bind(cx, b.name, Local(Owned, mutable, b.copy, b.reference)), bs[1..], mutable);
      BindFrames(Bind(cx, b.name, Local(Uninit, mutable, true, false)), bs[1..], mutable);
    }
  }

  lemma {:induction false} PlacesAreShaped(e: Expr, bound: set<string>)
    ensures PlaceOf(e, bound).Some? ==> PlaceShaped(e)
    decreases e
  {
    match e
    case Field(r, _) => PlacesAreShaped(r, bound);
    case Unary(true, _, r) => PlacesAreShaped(r, bound);
    case Index(r, _) => PlacesAreShaped(r, bound);
    case _ =>
  }
}
