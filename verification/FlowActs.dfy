/** What a lambda does to the locals around it: an account of its body by name. */
module FlowActs {
  import opened Hir
  import opened Places
  import opened Nll
  import F = Flow

  /** A move out of a local, a local passed by reference, a borrowed place, and a
      name through which something may be stored. */
  datatype Act = Moves(root: string) | Passes(root: string, kind: F.BorrowKind) | Borrows(place: Place, kind: F.BorrowKind) | Through(root: string)

  function Throughs(xs: seq<string>): seq<Act> { if xs == [] then [] else [Through(xs[0])] + Throughs(xs[1..]) }

  function Kind(mutable: bool): F.BorrowKind { if mutable then F.Mut else F.Shared }

  function PathActs(segs: seq<string>, pos: F.Position): seq<Act> {
    if segs == [] then []
    else if pos.Moving? then [Moves(segs[0])]
    else if |segs| == 1 && (pos.ForShared? || pos.ForMut?) then [Passes(segs[0], Kind(pos.ForMut?))]
    else []
  }

  /** The operands of a call by name; a path in the place of the callee names a
      function or a lambda. */
  function CallReads(e: Expr): seq<string>
    requires e.Call? || e.MethodCall?
  {
    if e.Call? && e.callee.Path? then ReadsAll(e.args) else Reads(e)
  }

  function Acts(e: Expr, pos: F.Position): seq<Act>
    decreases e
  {
    match e
    case Path(segs) => PathActs(segs, pos)
    case Literal => []
    case BlockExpr(b) => ActsBlock(b)
    case Tuple(xs) => ActsAll(xs)
    case Binary(l, r) => Acts(l, F.Use) + Acts(r, F.Use)
    case Assign(_, carries, l, r) => Acts(l, F.Target) + Acts(r, F.Use) + (if carries then Throughs(Reads(l)) else [])
    case Unary(_, _, r) => Acts(r, F.Use)
    case Borrow(mutable, inner) =>
      var p := F.FullPlace(inner, F.NameSet(Reads(inner)));
      if p.Some? then [Borrows(p.value, Kind(mutable))] else Acts(inner, if mutable then F.ForMut else F.ForShared)
    case Move(inner) => if inner.Unary? && inner.deref then Acts(inner.operand, F.Use) else Acts(inner, F.Moving)
    case Call(c, params, args) => Acts(c, F.Use) + ActsArgs(args, params) + Throughs(CallReads(e))
    case MethodCall(r, args) => Acts(r, F.ForShared) + ActsAll(args) + Throughs(CallReads(e))
    case Field(r, _) => Acts(r, F.Use)
    case Index(r, i) => Acts(r, F.Use) + Acts(i, F.Use)
    case If(c, thn, els) => Acts(c, F.Use) + ActsBlock(thn) + (if els.None? then [] else Acts(els.value, F.Use))
    case Match(s, arms) => Acts(s, F.Use) + ActsArms(arms)
    case For(_, it, body) => Acts(it, F.Use) + ActsBlock(body)
    case While(c, body) => Acts(c, F.Use) + ActsBlock(body)
    case Loop(body) => ActsBlock(body)
    case Return(v) => if v.None? then [] else Acts(v.value, F.Moving)
    case Lambda(_, body) => ActsBlock(body)
  }

  function ActsAll(es: seq<Expr>): seq<Act>
    decreases es
  {
    if es == [] then [] else Acts(es[0], F.Use) + ActsAll(es[1..])
  }

  function ActsArgs(args: seq<Expr>, params: seq<Passing>): seq<Act>
    decreases args
  {
    if args == [] then [] else Acts(args[0], F.PositionOf(params)) + ActsArgs(args[1..], if params == [] then [] else params[1..])
  }

  function ActsArms(arms: seq<Arm>): seq<Act>
    decreases arms
  {
    if arms == [] then [] else ActsArm(arms[0]) + ActsArms(arms[1..])
  }

  function ActsArm(arm: Arm): seq<Act>
    decreases arm
  {
    (if arm.guard.None? then [] else Acts(arm.guard.value, F.Use)) + Acts(arm.body, F.Use)
  }

  function ActsBlock(b: Block): seq<Act>
    decreases b
  {
    ActsStmts(b.stmts) + (if b.tail.None? then [] else Acts(b.tail.value, F.Use))
  }

  function ActsStmts(ss: seq<Stmt>): seq<Act>
    decreases ss
  {
    if ss == [] then [] else ActsStmt(ss[0]) + ActsStmts(ss[1..])
  }

  function ActsStmt(s: Stmt): seq<Act>
    decreases s
  {
    match s
    case Let(_, init, _) => if init.None? then [] else Acts(init.value, F.Use)
    case ExprStmt(e) => Acts(e, F.Use)
  }

  function RootOf(a: Act): string { if a.Borrows? then a.place.root else a.root }

  /** Something may be stored through a name that is not one of these. */
  predicate StoresOutside(acts: seq<Act>, bound: set<string>) { exists a :: a in acts && a.Through? && a.root !in bound }

  /** None of these names is moved or borrowed. */
  predicate Harmless(acts: seq<Act>, bound: set<string>) {
    acts == [] || ((acts[0].Through? || RootOf(acts[0]) !in bound) && Harmless(acts[1..], bound))
  }

  /** Those of the names read that are in scope. */
  function Within(xs: seq<string>, bound: set<string>): (r: seq<string>)
    ensures forall x :: x in r <==> x in xs && x in bound
  {
    if xs == [] then [] else (if xs[0] in bound then [xs[0]] else []) + Within(xs[1..], bound)
  }

  function MovedBy(acts: seq<Act>, bound: set<string>): (r: seq<string>)
    ensures Harmless(acts, bound) ==> r == []
  {
    if acts == [] then []
    else (if acts[0].Moves? && acts[0].root in bound then [acts[0].root] else []) + MovedBy(acts[1..], bound)
  }
}
