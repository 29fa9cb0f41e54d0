/** The paths through a body: what may happen to its locals and borrows when every
    branch is decided. */
module FlowPaths {
  import opened Hir
  import opened Nll
  import opened FlowState
  import opened FlowActs
  import F = Flow

  // ----- paths and places -----

  function OnLocal(ps: PathState, x: string, pos: F.Position): (r: PathState)
    ensures Steady(ps, r)
  {
    match pos
    case Use => Read(ps, x)
    case Moving => MoveOut(ps, x)
    case ForShared => TakeLocal(ps, x, F.Shared)
    case ForMut => TakeLocal(ps, x, F.Mut)
    case Target => Assigned(ps, x)
  }

  function OnPart(ps: PathState, x: string, pos: F.Position): (r: PathState)
    ensures Steady(ps, r)
  {
    match pos
    case Moving => MoveOut(ps, x)
    case Target => ps
    case _ => Read(ps, x)
  }

  /** Storing to a whole local is no read of it. */
  predicate Stored(segs: seq<string>, pos: F.Position) { |segs| == 1 && pos.Target? }

  function Seen(ps: PathState, segs: seq<string>, pos: F.Position): (r: PathState)
    requires segs != []
    ensures Steady(ps, r) && Kept(ps, r) && r.misuse == ps.misuse
  {
    if Stored(segs, pos) then ps else Follow(ps, segs[0])
  }

  function OnPath(ps: PathState, segs: seq<string>, pos: F.Position): (r: PathState)
    ensures Alike(ps.frames, r.frames) && Settled(ps, r) && r.point == ps.point + if segs == [] then 0 else 1
  {
    if segs == [] then ps
    else
      var ps1 := Seen(ps, segs, pos);
      Tick(if Lookup(ps.frames, segs[0]).None? then ps1
           else if |segs| == 1 then OnLocal(ps1, segs[0], pos) else OnPart(ps1, segs[0], pos))
  }

  /** The reads of a borrowed place: its root is what is borrowed, its index
      operands are read. */
  function PlaceReads(e: Expr, ps: PathState): (r: PathState)
    ensures Kept(ps, r) && r.point == ps.point + |Reads(e)|
    decreases e
  {
    match e
    case Path(segs) => if segs == [] then ps else Tick(Follow(ps, segs[0]))
    case Field(r, _) => PlaceReads(r, ps)
    case Unary(_, _, r) => PlaceReads(r, ps)
    case Index(r, i) => OperandReads(i, PlaceReads(r, ps))
    case _ => Skip(ps, |Reads(e)|)
  }

  /** The names its index operands read. */
  function OperandNames(e: Expr): seq<string> {
    match e
    case Field(r, _) => OperandNames(r)
    case Unary(_, _, r) => OperandNames(r)
    case Index(r, i) => OperandNames(r) + Reads(i)
    case _ => []
  }

  function OperandReads(e: Expr, ps: PathState): (r: PathState)
    ensures Kept(ps, r) && r.point == ps.point + |Reads(e)|
    decreases e
  {
    match e
    case Path(segs) => if segs == [] then ps else Read(Tick(Follow(ps, segs[0])), segs[0])
    case Field(r, _) => OperandReads(r, ps)
    case Unary(_, _, r) => OperandReads(r, ps)
    case Index(r, i) => OperandReads(i, OperandReads(r, ps))
    case _ => Skip(ps, |Reads(e)|)
  }

  // ----- patterns -----

  function Bindings(p: Pattern): seq<Binding> { F.Bindings(p) }

  function PatNames(p: Pattern): set<string> { set b | b in F.Bindings(p) :: b.name }

  function PatCarriers(p: Pattern): set<string> { set b | b in F.Bindings(p) && b.carries :: b.name }

  /** What a match binds may hold what its scrutinee reads. */
  function ArmCarriers(arms: seq<Arm>): set<string> {
    if arms == [] then {} else PatCarriers(arms[0].pat) + ArmCarriers(arms[1..])
  }

  // ----- lambdas -----

  function Capture(ps: PathState, a: Act): (r: PathState)
    ensures Steady(ps, r)
  {
    match a
    case Passes(x, kind) => if Lookup(ps.frames, x).Some? then TakeLocal(ps, x, kind) else ps
    case Borrows(p, kind) => if Lookup(ps.frames, p.root).Some? then Take(ps, p, kind) else ps
    case _ => ps
  }

  function CaptureAll(ps: PathState, acts: seq<Act>): (r: PathState)
    ensures Steady(ps, r)
    decreases |acts|
  {
    if acts == [] then ps
    else
      var ps1 := Capture(ps, acts[0]);
      var ps2 := CaptureAll(ps1, acts[1..]);
      AlikeTransitive(ps.frames, ps1.frames, ps2.frames);
      ps2
  }

  /** A lambda holds the locals that its body names and the borrows that it takes of
      them; what it moves is moved when it is called. */
  function Enclose(ps: PathState, names: seq<string>, acts: seq<Act>): (r: PathState)
    ensures Steady(ps, r)
  {
    var scope := InScope(ps.frames);
    var uses := Within(names, scope);
    var ps1 := FollowAll(Mingle(ps, F.NameSet(uses), StoresOutside(acts, scope)), uses);
    var ps2 := CaptureAll(ps1, acts);
    Back(ps2.(closures := ps2.closures + [Closure(uses, MovedBy(acts, scope), ps2.passing, ps2.limit)]), ps)
  }

  // ----- calls -----

  /** A path that names no local, in the place of a callee. */
  predicate Global(e: Expr, scope: set<string>) {
    e.Call? && e.callee.Path? && F.NameSet(Reads(e.callee)) !! scope
  }

  function OperandsOf(e: Expr, scope: set<string>): set<string>
    requires e.Call? || e.MethodCall?
  {
    F.NameSet(if Global(e, scope) then ReadsAll(e.args) else Reads(e))
  }

  /** Toward the caller's names and every operand. */
  function Among(ps: PathState, e: Expr): (r: PathState)
    requires e.Call? || e.MethodCall?
    ensures r == ps.(passing := r.passing, limit := r.limit)
  {
    var names := OperandsOf(e, InScope(ps.frames));
    Mingle(ps, names, !(names <= InScope(ps.frames)))
  }

  /** Toward everything that is tied to the assigned place. */
  function TowardTarget(ps: PathState, e: Expr): (r: PathState)
    requires e.Assign?
    ensures r == ps.(passing := r.passing, limit := r.limit)
  {
    var names := F.NameSet(Reads(e.lhs));
    if e.carries then Spread(ps, names, !(names <= InScope(ps.frames))) else Toward(ps, {}, ps.limit)
  }

  // ----- expressions -----

  /** One path in the checker's order of events. Code past a `return` still runs:
      a real path is a prefix of this one. The body of a lambda is run once where
      it is written, for what it does to its own locals; loops are outside the claim. */
  function Run(e: Expr, pos: F.Position, ps: PathState): (r: PathState)
    ensures r.point == ps.point + |Reads(e)| && Alike(ps.frames, r.frames) && Settled(ps, r)
    decreases e, 4
  {
    match e
    case Path(segs) => OnPath(ps, segs, pos)
    case Literal => ps
    case BlockExpr(b) => RunBlock(b, ps)
    case Tuple(xs) => RunAll(xs, ps)
    case Unary(_, _, r) => Run(r, F.Use, ps)
    case Field(r, _) => Run(r, F.Use, ps)
    case Return(v) => if v.None? then ps else Run(v.value, F.Moving, ps)
    case _ => RunParts(e, ps)
  }

  function RunParts(e: Expr, ps: PathState): (r: PathState)
    requires !e.Path? && !e.Literal? && !e.BlockExpr? && !e.Tuple? && !e.Unary? && !e.Field? && !e.Return?
    ensures r.point == ps.point + |Reads(e)| && Alike(ps.frames, r.frames) && Settled(ps, r)
    decreases e, 3
  {
    match e
    case Binary(_, _) => RunTwo(e, ps)
    case Index(_, _) => RunTwo(e, ps)
    case Assign(_, _, _, _) => RunAssign(e, ps)
    case Borrow(_, _) => RunBorrow(e, ps)
    case Move(_) => RunMove(e, ps)
    case Call(_, _, _) => RunCall(e, ps)
    case MethodCall(_, _) => RunCall(e, ps)
    case If(_, _, _) => RunIf(e, ps)
    case Match(_, _) => RunMatch(e, ps)
    case Lambda(_, _) => RunLambda(e, ps)
    case For(_, _, _) => Skip(ps, |Reads(e)|)
    case While(_, _) => Skip(ps, |Reads(e)|)
    case Loop(_) => Skip(ps, |Reads(e)|)
  }

  function RunTwo(e: Expr, ps: PathState): (r: PathState)
    requires e.Binary? || e.Index?
    ensures r.point == ps.point + |Reads(e)| && Alike(ps.frames, r.frames) && Settled(ps, r)
    decreases e, 1
  {
    var ps1 := Run(if e.Binary? then e.lhs else e.receiver, F.Use, ps);
    var ps2 := Run(if e.Binary? then e.rhs else e.idx, F.Use, ps1);
    AlikeTransitive(ps.frames, ps1.frames, ps2.frames);
    ps2
  }

  function RunCall(e: Expr, ps: PathState): (r: PathState)
    requires e.Call? || e.MethodCall?
    ensures r.point == ps.point + |Reads(e)| && Alike(ps.frames, r.frames) && Settled(ps, r)
    decreases e, 2
  {
    var ps1 := RunOperands(e, ps);
    var ps2 := InvokeFor(ps1, e, InScope(ps.frames));
    AlikeTransitive(ps.frames, ps1.frames, ps2.frames);
    ps2
  }

  function RunOperands(e: Expr, ps: PathState): (r: PathState)
    requires e.Call? || e.MethodCall?
    ensures r.point == ps.point + |Reads(e)| && Alike(ps.frames, r.frames) && Settled(ps, r)
    decreases e, 1
  {
    var among := Among(ps, e);
    var ps1 := Run(First(e), if e.Call? then F.Use else F.ForShared, if Global(e, InScope(ps.frames)) then Toward(ps, {}, ps.limit) else among);
    var ps2 := RunRest(e, Back(ps1, among));
    AlikeTransitive(ps.frames, ps1.frames, ps2.frames);
    Back(ps2, ps)
  }

  function InvokeFor(ps: PathState, e: Expr, scope: set<string>): (r: PathState)
    requires e.Call? || e.MethodCall?
    ensures Steady(ps, r)
  {
    Invoke(ps, ps.closures, OperandsOf(e, scope))
  }

  /** The callee or the receiver. */
  function First(e: Expr): (r: Expr)
    requires e.Call? || e.MethodCall?
    ensures Reads(e) == Reads(r) + ReadsAll(e.args) && r < e
  {
    if e.Call? then e.callee else e.receiver
  }

  function RunRest(e: Expr, ps: PathState): (r: PathState)
    requires e.Call? || e.MethodCall?
    ensures r.point == ps.point + |ReadsAll(e.args)| && Alike(ps.frames, r.frames) && Settled(ps, r)
    decreases e, 0
  {
    if e.Call? then RunArgs(e.args, e.params, ps) else RunAll(e.args, ps)
  }

  function RunMatch(e: Expr, ps: PathState): (r: PathState)
    requires e.Match?
    ensures r.point == ps.point + |Reads(e)| && Alike(ps.frames, r.frames) && Settled(ps, r)
    decreases e, 1
  {
    var ps1 := RunFor(e.scrutinee, ArmCarriers(e.arms), ps);
    var ps2 := RunChosen(e.arms, ps1);
    AlikeTransitive(ps.frames, ps1.frames, ps2.frames);
    ps2
  }

  function RunChosen(arms: seq<Arm>, ps: PathState): (r: PathState)
    ensures r.point == ps.point + |ReadsArms(arms)| && Alike(ps.frames, r.frames) && Settled(ps, r)
    decreases arms, 2
  {
    if arms == [] then ps else RunArms(arms, Choice(ps) % |arms|, Chosen(ps))
  }

  function RunAssign(e: Expr, ps: PathState): (r: PathState)
    requires e.Assign?
    ensures r.point == ps.point + |Reads(e)| && Alike(ps.frames, r.frames) && Settled(ps, r)
    decreases e, 1
  {
    var ps1 := Back(Run(e.lhs, F.Target, Toward(ps, {}, ps.limit)), ps);
    var ps2 := Back(Run(e.rhs, F.Use, TowardTarget(ps1, e)), ps);
    AlikeTransitive(ps.frames, ps1.frames, ps2.frames);
    ps2
  }

  function RunBorrow(e: Expr, ps: PathState): (r: PathState)
    requires e.Borrow?
    ensures r.point == ps.point + |Reads(e)| && Alike(ps.frames, r.frames) && Settled(ps, r)
    decreases e, 1
  {
    match F.FullPlace(e.inner, InScope(ps.frames))
    case Some(p) => PlaceReads(e.inner, Take(ps, p, Kind(e.mutable)))
    case None => Run(e.inner, if e.mutable then F.ForMut else F.ForShared, ps)
  }

  function RunMove(e: Expr, ps: PathState): (r: PathState)
    requires e.Move?
    ensures r.point == ps.point + |Reads(e)| && Alike(ps.frames, r.frames) && Settled(ps, r)
    decreases e, 1
  {
    if e.inner.Unary? && e.inner.deref then
      assert Reads(e.inner) == Reads(e.inner.operand);
      Run(e.inner.operand, F.Use, ps)
    else Run(e.inner, F.Moving, ps)
  }

  function RunIf(e: Expr, ps: PathState): (r: PathState)
    requires e.If?
    ensures r.point == ps.point + |Reads(e)| && Alike(ps.frames, r.frames) && Settled(ps, r)
    decreases e, 1
  {
    var ps1 := RunFor(e.cond, {}, ps);
    var ps2 := RunBranch(e, Choice(ps1), Chosen(ps1));
    AlikeTransitive(ps.frames, ps1.frames, ps2.frames);
    ps2
  }

  /** One branch, with the points of the other skipped. */
  function RunBranch(e: Expr, c: nat, ps: PathState): (r: PathState)
    requires e.If?
    ensures r.point == ps.point + |Reads(e)| - |Reads(e.cond)| && Alike(ps.frames, r.frames) && Settled(ps, r)
    decreases e, 0
  {
    if c == 0 then Skip(RunBlock(e.thn, ps), if e.els.None? then 0 else |Reads(e.els.value)|)
    else
      var ps2 := Skip(ps, |ReadsBlock(e.thn)|);
      if e.els.None? then ps2 else Run(e.els.value, F.Use, ps2)
  }

  function RunLambda(e: Expr, ps: PathState): (r: PathState)
    requires e.Lambda?
    ensures r.point == ps.point + |Reads(e)| && Alike(ps.frames, r.frames) && Settled(ps, r)
    decreases e, 1
  {
    LambdaReads(e);
    Made(ps, RunScope(F.UnitBindings(e.inputs), e.body, ps), ReadsBlock(e.body), ActsBlock(e.body))
  }

  lemma LambdaReads(e: Expr)
    requires e.Lambda?
    ensures Reads(e) == ReadsBlock(e.body)
  {
  }

  /** A lambda with these reads and acts, after a trial run of its body. */
  function Made(ps: PathState, tried: PathState, names: seq<string>, acts: seq<Act>): (r: PathState)
    ensures r.point == ps.point + |names| && Alike(ps.frames, r.frames) && Settled(ps, r)
  {
    Skip(Enclose(Noted(ps, tried), names, acts), |names|)
  }

  /** What is kept of a trial run. */
  function Noted(ps: PathState, tried: PathState): PathState {
    ps.(clash := tried.clash, misuse := tried.misuse, dangling := tried.dangling, torn := tried.torn, choices := tried.choices)
  }

  function Inside(ps: PathState, bs: seq<Binding>, n: nat): (r: PathState)
    ensures AlikeOuter(Open(ps).frames, r.frames) && r.point == ps.point
  {
    Whole(Enter(ps, bs), {}, n)
  }

  /** A block inside a scope of its own names, whose value goes nowhere. */
  function RunScope(bs: seq<Binding>, b: Block, ps: PathState): (r: PathState)
    ensures r.point == ps.point + |ReadsBlock(b)| && Alike(ps.frames, r.frames)
    decreases b, 1
  {
    var ps2 := RunBlock(b, Inside(ps, bs, |ReadsBlock(b)|));
    CloseAlike(ps, Inside(ps, bs, |ReadsBlock(b)|), ps2);
    Close(ps2)
  }

  function RunAll(es: seq<Expr>, ps: PathState): (r: PathState)
    ensures r.point == ps.point + |ReadsAll(es)| && Alike(ps.frames, r.frames) && Settled(ps, r)
    decreases es, 1
  {
    if es == [] then ps else RunAll(es[1..], Run(es[0], F.Use, ps))
  }

  function RunArgs(args: seq<Expr>, params: seq<Passing>, ps: PathState): (r: PathState)
    ensures r.point == ps.point + |ReadsAll(args)| && Alike(ps.frames, r.frames) && Settled(ps, r)
    decreases args, 1
  {
    if args == [] then ps
    else RunArgs(args[1..], if params == [] then [] else params[1..], Run(args[0], F.PositionOf(params), ps))
  }

  /** Arm `k`, with the points of the others skipped. */
  function RunArms(arms: seq<Arm>, k: nat, ps: PathState): (r: PathState)
    requires k < |arms|
    ensures r.point == ps.point + |ReadsArms(arms)| && Alike(ps.frames, r.frames) && Settled(ps, r)
    decreases arms, 1
  {
    if k == 0 then Skip(RunArm(arms[0], ps), |ReadsArms(arms[1..])|)
    else RunArms(arms[1..], k - 1, Skip(ps, |ReadsArm(arms[0])|))
  }

  function RunArm(arm: Arm, ps: PathState): (r: PathState)
    ensures r.point == ps.point + |ReadsArm(arm)| && Alike(ps.frames, r.frames) && Settled(ps, r)
    decreases arm, 1
  {
    var ps1 := Enter(ps, Bindings(arm.pat));
    var ps2 := if arm.guard.None? then ps1 else Run(arm.guard.value, F.Use, ps1);
    var ps3 := Run(arm.body, F.Use, ps2);
    AlikeTransitive(ps1.frames, ps2.frames, ps3.frames);
    CloseAlike(ps, ps1, ps3);
    Close(ps3)
  }

  // ----- blocks -----

  function RunBlock(b: Block, ps: PathState): (r: PathState)
    ensures r.point == ps.point + |ReadsBlock(b)| && Alike(ps.frames, r.frames) && Settled(ps, r)
    decreases b, 0
  {
    var ps1 := RunStmts(b.stmts, Open(ps));
    Close(if b.tail.None? then ps1 else Run(b.tail.value, F.Use, ps1))
  }

  function RunStmts(ss: seq<Stmt>, ps: PathState): (r: PathState)
    ensures r.point == ps.point + |ReadsStmts(ss)| && AlikeOuter(ps.frames, r.frames) && Settled(ps, r)
    decreases ss, 1
  {
    if ss == [] then ps else RunStmts(ss[1..], RunStmt(ss[0], ps))
  }

  /** A statement keeps what its value holds to its own end. */
  function RunStmt(s: Stmt, ps: PathState): (r: PathState)
    ensures r.point == ps.point + |ReadsStmt(s)| && AlikeOuter(ps.frames, r.frames) && Settled(ps, r)
    decreases s, 1
  {
    match s
    case Let(pat, init, _) =>
      DeclareKeeps(ps, Bindings(pat), Unset);
      if init.None? then DeclareAll(ps, Bindings(pat), Unset)
      else
        var ps1 := RunFor(init.value, PatCarriers(pat), ps);
        DeclareKeeps(ps1, Bindings(pat), Ready);
        DeclareAll(ps1, Bindings(pat), Ready)
    case ExprStmt(e) => RunFor(e, {}, ps)
  }

  /** A whole expression, whose value goes to these names. */
  function RunFor(e: Expr, names: set<string>, ps: PathState): (r: PathState)
    ensures r.point == ps.point + |Reads(e)| && Alike(ps.frames, r.frames) && Settled(ps, r)
    decreases e, 5
  {
    Back(Run(e, F.Use, Whole(ps, names, |Reads(e)|)), ps)
  }
}
