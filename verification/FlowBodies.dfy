/** One whole body for each hole, through the checker and along its path. */
module FlowBodies {
  import opened Wrappers
  import opened Hir
  import opened Places
  import opened Nll
  import opened FlowState
  import opened FlowPaths
  import opened FlowSafety
  import opened FlowTheorems
  import opened FlowHoles
  import F = Flow

  function Var(x: string): Expr { Path([x]) }

  function Named(x: string, ty: Ty, actual: Real): Pattern { Pattern(NameShape(x, actual, None), ty) }

  /** A value that is Copy or not, and so recorded. */
  function LetValue(x: string, copy: bool, mutable: bool): Stmt {
    Let(Named(x, PlainTy(copy), Real(copy, false, false)), Some(Literal), mutable)
  }

  // ----- from the start of a body to its end -----

  ghost predicate Entered(ss: seq<Stmt>, choices: seq<nat>, cx: F.Cx, ps: PathState) {
    var last := LastUses(Block(ss, None));
    && cx == F.Cx(map[], [[], []], [], last, 0, None, [])
    && ps == Open(Blank([], Block(ss, None), choices))
  }

  /** What a whole body comes to, from what its statements do. */
  lemma {:induction false} BodyEnds(ss: seq<Stmt>, choices: seq<nat>, cx: F.Cx, ps: PathState)
    requires Entered(ss, choices, cx, ps)
    requires forall r :: r in F.WalkStmts(ss, cx).ledger ==> r.borrower.None?
    ensures
      var b := Block(ss, None);
      && Checked([], b).diag == F.WalkStmts(ss, cx).diag
      && PathThrough([], b, choices).misuse == RunStmts(ss, ps).misuse
      && PathThrough([], b, choices).clash == RunStmts(ss, ps).clash
      && PathThrough([], b, choices).torn == RunStmts(ss, ps).torn
      && (RunStmts(ss, ps).dangling ==> PathThrough([], b, choices).dangling)
  {
    var b := Block(ss, None);
    assert F.Push(Start([], b)) == cx;
    assert PathStart([], b, choices) == Blank([], b, choices);
    QuietPop(F.WalkStmts(ss, cx));
    QuietPop(F.WalkBlock(b, Start([], b)));
  }

  lemma QuietPop(cx: F.Cx)
    requires cx.scopes != [] && forall r :: r in cx.ledger ==> r.borrower.None?
    ensures F.Pop(cx).diag == cx.diag && forall r :: r in F.Pop(cx).ledger ==> r.borrower.None?
  {
    AllAnonymous(cx.ledger, F.NameSet(cx.scopes[|cx.scopes| - 1]));
  }

  lemma {:induction false} AllAnonymous(ledger: F.Ledger, names: set<string>)
    requires forall r :: r in ledger ==> r.borrower.None?
    ensures F.OutlivesDiags(ledger, names) == []
    decreases |ledger|
  {
    if ledger != [] { AllAnonymous(ledger[1..], names); }
  }

  lemma FirstStmt(s: Stmt, rest: seq<Stmt>, cx: F.Cx, ps: PathState)
    ensures F.WalkStmts([s] + rest, cx) == F.WalkStmts(rest, F.WalkStmt(s, cx))
    ensures RunStmts([s] + rest, ps) == RunStmts(rest, RunStmt(s, ps))
  {
    assert ([s] + rest)[0] == s && ([s] + rest)[1..] == rest;
  }

  lemma NoStmts(cx: F.Cx, ps: PathState)
    ensures F.WalkStmts([], cx) == cx && RunStmts([], ps) == ps
  {
  }

  // ----- single statements, with nothing borrowed -----

  lemma NamedBinds(x: string, ty: Ty, actual: Real)
    ensures F.Bindings(Named(x, ty, actual)) == [F.BindingOf(x, ty, actual)]
    ensures PatNames(Named(x, ty, actual)) == {x} && F.SingleName(Named(x, ty, actual)) == Some(x)
    ensures PatCarriers(Named(x, ty, actual)) == if actual.reference || actual.carries then {x} else {}
  {
    var bs := F.Bindings(Named(x, ty, actual));
    assert bs == [F.BindingOf(x, ty, actual)] && bs[0] in bs;
  }

  lemma ExprSteps(e: Expr, cx: F.Cx, ps: PathState)
    ensures F.WalkStmt(ExprStmt(e), cx) == F.Walk(e, F.Use, cx) && RunStmt(ExprStmt(e), ps) == RunFor(e, {}, ps)
  {
  }

  lemma ForSteps(e: Expr, names: set<string>, ps: PathState)
    ensures RunFor(e, names, ps) == Back(Run(e, F.Use, Whole(ps, names, |Reads(e)|)), ps)
  {
  }

  lemma PathSteps(e: Expr, pos: F.Position, cx: F.Cx, ps: PathState)
    requires e.Path?
    ensures F.Walk(e, pos, cx) == F.WalkPath(cx, e.segs, pos) && Run(e, pos, ps) == OnPath(ps, e.segs, pos)
  {
  }

  lemma MoveSteps(inner: Expr, cx: F.Cx, ps: PathState)
    requires inner.Path?
    ensures F.Walk(Move(inner), F.Use, cx) == F.Walk(inner, F.Moving, cx)
    ensures Run(Move(inner), F.Use, ps) == Run(inner, F.Moving, ps)
  {
    assert F.WalkMove(Move(inner), cx) == F.Walk(inner, F.Moving, cx) && RunMove(Move(inner), ps) == Run(inner, F.Moving, ps);
    assert RunParts(Move(inner), ps) == RunMove(Move(inner), ps);
  }

  lemma LetUnfolds(pat: Pattern, init: Expr, mutable: bool, cx: F.Cx, ps: PathState)
    ensures
      F.WalkStmt(Let(pat, Some(init), mutable), cx)
      == F.BindAll(F.Walk(init, F.Use, cx.(pending := F.SingleName(pat))).(pending := cx.pending), F.Bindings(pat), mutable)
    ensures RunStmt(Let(pat, Some(init), mutable), ps) == DeclareAll(RunFor(init, PatCarriers(pat), ps), F.Bindings(pat), Ready)
  {
  }

  lemma LetSteps(pat: Pattern, init: Expr, mutable: bool, cx: F.Cx, ps: PathState)
    requires init.Literal?
    ensures F.WalkStmt(Let(pat, Some(init), mutable), cx) == F.BindAll(cx, F.Bindings(pat), mutable)
    ensures RunStmt(Let(pat, Some(init), mutable), ps) == DeclareAll(ps, F.Bindings(pat), Ready)
  {
    LetUnfolds(pat, init, mutable, cx, ps);
    ForSteps(init, PatCarriers(pat), ps);
    var cx0, ps0 := cx.(pending := F.SingleName(pat)), Whole(ps, PatCarriers(pat), |Reads(init)|);
    assert F.Walk(init, F.Use, cx0) == cx0 && Run(init, F.Use, ps0) == ps0;
  }

  lemma UnsetSteps(pat: Pattern, mutable: bool, cx: F.Cx, ps: PathState)
    ensures F.WalkStmt(Let(pat, None, mutable), cx) == F.BindUninit(cx, F.Bindings(pat), mutable)
    ensures RunStmt(Let(pat, None, mutable), ps) == DeclareAll(ps, F.Bindings(pat), Unset)
  {
  }

  lemma BindOne(b: Binding, mutable: bool, cx: F.Cx, ps: PathState)
    ensures F.BindAll(cx, [b], mutable) == F.Bind(cx, b.name, F.Local(F.Owned, mutable, b.copy, b.reference))
    ensures F.BindUninit(cx, [b], mutable) == F.Bind(cx, b.name, F.Local(F.Uninit, mutable, true, false))
    ensures forall status :: DeclareAll(ps, [b], status)
                          == ps.(frames := Declare(ps.frames, b.name, SlotOf(b, status)))
  {
    assert [b][1..] == [];
  }

  lemma LetValueStep(x: string, copy: bool, mutable: bool, cx: F.Cx, ps: PathState)
    requires ps.frames != []
    ensures F.WalkStmt(LetValue(x, copy, mutable), cx) == F.Bind(cx, x, F.Local(F.Owned, mutable, copy, false))
    ensures RunStmt(LetValue(x, copy, mutable), ps) == ps.(frames := Declare(ps.frames, x, Slot(Ready, copy, false, false)))
  {
    var ty, actual := PlainTy(copy), Real(copy, false, false);
    NamedBinds(x, ty, actual);
    LetSteps(Named(x, ty, actual), Literal, mutable, cx, ps);
    BindOne(F.BindingOf(x, ty, actual), mutable, cx, ps);
  }

  /** Nothing is borrowed, and no lambda held. */
  predicate Calm(ps: PathState) { ps.live == [] && ps.closures == [] }

  /** A bare local, in use, moved or stored to, for no name. */
  lemma TouchStep(x: string, pos: F.Position, cx: F.Cx, ps: PathState)
    requires cx.ledger == [] && x in cx.locals && Calm(ps) && ps.passing == {} && Lookup(ps.frames, x).Some? && !pos.ForShared? && !pos.ForMut?
    ensures F.Walk(Var(x), pos, cx) == F.Touch(cx.(point := cx.point + 1), x, pos)
    ensures Run(Var(x), pos, ps) == Tick(OnLocal(ps, x, pos))
  {
    PathSteps(Var(x), pos, cx, ps);
    TouchEvent(x, pos, cx);
    FollowsNothing(x, ps);
  }

  lemma TouchEvent(x: string, pos: F.Position, cx: F.Cx)
    requires cx.ledger == [] && x in cx.locals && !pos.ForShared? && !pos.ForMut?
    ensures F.WalkPath(cx, [x], pos) == F.Touch(cx.(point := cx.point + 1), x, pos)
  {
    NothingHeld(x, F.Touch(F.Advance(cx), x, pos));
  }

  lemma FollowsNothing(x: string, ps: PathState)
    requires Calm(ps) && ps.passing == {}
    ensures Follow(ps, x) == ps
  {
    assert Tie(ps, x) == ps.ties;
  }

  lemma NothingHeld(x: string, cx: F.Cx)
    requires cx.ledger == []
    ensures F.DecayAfterUse(cx, x) == cx
  {
  }

  lemma QuietMove(x: string, cx: F.Cx)
    requires cx.ledger == [] && x in cx.locals && cx.locals[x].state.Owned?
    ensures F.DoMove(cx, x) == if cx.locals[x].copy then cx else cx.(locals := cx.locals[x := cx.locals[x].(state := F.Moved)])
  {
  }

  /** `move x;` */
  lemma MoveStep(x: string, cx: F.Cx, ps: PathState)
    requires cx.ledger == [] && x in cx.locals && cx.locals[x].state.Owned?
    requires Calm(ps) && Lookup(ps.frames, x).Some?
    ensures
      F.WalkStmt(ExprStmt(Move(Var(x))), cx)
      == cx.(point := cx.point + 1, locals := if cx.locals[x].copy then cx.locals else cx.locals[x := cx.locals[x].(state := F.Moved)])
    ensures RunStmt(ExprStmt(Move(Var(x))), ps) == Tick(MoveOut(ps, x))
  {
    var ps0 := Whole(ps, {}, |Reads(Move(Var(x)))|);
    ExprSteps(Move(Var(x)), cx, ps);
    ForSteps(Move(Var(x)), {}, ps);
    MovePasses(x, cx, ps0);
    MoveBack(x, ps, |Reads(Move(Var(x)))|);
  }

  lemma MoveBack(x: string, ps: PathState, n: nat)
    requires Calm(ps)
    ensures Back(Tick(MoveOut(Whole(ps, {}, n), x)), ps) == Tick(MoveOut(ps, x))
  {
    assert !Pledged(Whole(ps, {}, n), x) && !Pledged(ps, x);
  }

  lemma MovePasses(x: string, cx: F.Cx, ps: PathState)
    requires cx.ledger == [] && x in cx.locals && cx.locals[x].state.Owned?
    requires Calm(ps) && ps.passing == {} && Lookup(ps.frames, x).Some?
    ensures
      F.Walk(Move(Var(x)), F.Use, cx)
      == cx.(point := cx.point + 1, locals := if cx.locals[x].copy then cx.locals else cx.locals[x := cx.locals[x].(state := F.Moved)])
    ensures Run(Move(Var(x)), F.Use, ps) == Tick(MoveOut(ps, x))
  {
    MoveSteps(Var(x), cx, ps);
    TouchStep(x, F.Moving, cx, ps);
    QuietMove(x, cx.(point := cx.point + 1));
  }

  /** `x;` */
  lemma ReadStep(x: string, cx: F.Cx, ps: PathState)
    requires cx.ledger == [] && x in cx.locals && cx.locals[x].state.Owned?
    requires Calm(ps) && Lookup(ps.frames, x).Some?
    ensures F.WalkStmt(ExprStmt(Var(x)), cx) == cx.(point := cx.point + 1)
    ensures RunStmt(ExprStmt(Var(x)), ps) == Tick(Read(ps, x))
  {
    ReadSees(x, cx, ps);
    ExprSteps(Var(x), cx, ps);
    assert F.Walk(Var(x), F.Use, cx) == F.WalkPath(cx, [x], F.Use);
    TouchEvent(x, F.Use, cx);
  }

  lemma ReadSees(x: string, cx: F.Cx, ps: PathState)
    requires Calm(ps) && Lookup(ps.frames, x).Some?
    ensures RunStmt(ExprStmt(Var(x)), ps) == Tick(Read(ps, x))
  {
    var ps0 := Whole(ps, {}, |Reads(Var(x))|);
    ExprSteps(Var(x), cx, ps);
    ForSteps(Var(x), {}, ps);
    PathSteps(Var(x), F.Use, cx, ps0);
    SeesOnly(x, ps0);
    assert Back(Tick(Read(ps0, x)), ps) == Tick(Read(ps, x));
  }

  /** A read that hands nothing on. */
  lemma SeesOnly(x: string, ps: PathState)
    requires Calm(ps) && ps.passing == {} && Lookup(ps.frames, x).Some?
    ensures OnPath(ps, [x], F.Use) == Tick(Read(ps, x))
  {
    FollowsNothing(x, ps);
  }

  // ----- types that the tables get wrong -----

  function UnsetStmts(x: string, ty: Ty, actual: Real): seq<Stmt> {
    [Let(Named(x, ty, actual), None, true)] + ([ExprStmt(Assign(false, false, Var(x), Literal))]
      + ([ExprStmt(Move(Var(x)))] + ([ExprStmt(Var(x))] + [])))
  }

  /** `let mut x; x = ..; move x; x` is accepted, and goes wrong exactly when the
      type of `x` is not Copy. */
  lemma {:induction false} UnsetBody(x: string, ty: Ty, actual: Real, choices: seq<nat>)
    ensures
      var b := Block(UnsetStmts(x, ty, actual), None);
      Checked([], b).diag == [] && (PathThrough([], b, choices).misuse <==> !actual.copy)
  {
    var ss, last := UnsetStmts(x, ty, actual), LastUses(Block(UnsetStmts(x, ty, actual), None));
    var cx := F.Cx(map[], [[], []], [], last, 0, None, []);
    var ps := Open(Blank([], Block(ss, None), choices));
    var cx1, ps1 := UnsetStep(x, ty, actual, cx, ps);
    var cx2, ps2 := StoreStep(x, cx1, ps1);
    MoveThenRead(x, cx2, ps2);
    FirstStmt(ss[0], ss[1..], cx, ps);
    assert ss[1..] == [ExprStmt(Assign(false, false, Var(x), Literal))] + ([ExprStmt(Move(Var(x)))] + ([ExprStmt(Var(x))] + []));
    FirstStmt(ExprStmt(Assign(false, false, Var(x), Literal)), [ExprStmt(Move(Var(x)))] + ([ExprStmt(Var(x))] + []), cx1, ps1);
    BodyEnds(ss, choices, cx, ps);
  }

  lemma {:induction false} UnsetStep(x: string, ty: Ty, actual: Real, cx: F.Cx, ps: PathState) returns (cx1: F.Cx, ps1: PathState)
    requires ps.frames != []
    ensures var s := Let(Named(x, ty, actual), None, true); cx1 == F.WalkStmt(s, cx) && ps1 == RunStmt(s, ps)
    ensures cx1 == cx.(locals := cx1.locals, scopes := cx1.scopes) && x in cx1.locals
    ensures cx1.locals[x] == F.Local(F.Uninit, true, true, false)
    ensures ps1 == ps.(frames := ps1.frames) && ps1.frames != []
    ensures Lookup(ps1.frames, x) == Some(Slot(Unset, actual.copy, actual.reference, actual.reference || actual.carries))
  {
    var b := F.BindingOf(x, ty, actual);
    NamedBinds(x, ty, actual);
    UnsetSteps(Named(x, ty, actual), true, cx, ps);
    BindOne(b, true, cx, ps);
    cx1, ps1 := F.BindUninit(cx, [b], true), DeclareAll(ps, [b], Unset);
    assert x in ps1.frames[|ps1.frames| - 1];
  }

  lemma {:induction false} StoreStep(x: string, cx: F.Cx, ps: PathState) returns (cx1: F.Cx, ps1: PathState)
    requires cx.ledger == [] && x in cx.locals && cx.locals[x].mutable && Calm(ps) && Lookup(ps.frames, x).Some?
    ensures var s := ExprStmt(Assign(false, false, Var(x), Literal)); cx1 == F.WalkStmt(s, cx) && ps1 == RunStmt(s, ps)
    ensures cx1 == cx.(locals := cx.locals[x := cx.locals[x].(state := F.Owned)], point := cx.point + 1)
    ensures ps1 == ps.(frames := ps1.frames, point := ps.point + 1)
    ensures Lookup(ps1.frames, x) == Some(Lookup(ps.frames, x).value.(status := Ready))
  {
    var e := Assign(false, false, Var(x), Literal);
    var ps0 := Whole(ps, {}, |Reads(e)|);
    ExprSteps(e, cx, ps);
    ForSteps(e, {}, ps);
    AssignSteps(e, cx, ps0);
    TouchStep(x, F.Target, cx, ps0);
    SetLookup(ps.frames, x, Ready, x);
    cx1, ps1 := F.Walk(e, F.Use, cx), RunFor(e, {}, ps);
    assert ps1 == Tick(Assigned(ps, x));
  }

  lemma AssignSteps(e: Expr, cx: F.Cx, ps: PathState)
    requires e.Assign? && e.rhs.Literal? && !e.carries && ps.passing == {}
    ensures F.Walk(e, F.Use, cx) == F.Walk(e.lhs, F.Target, cx) && Run(e, F.Use, ps) == Run(e.lhs, F.Target, ps)
  {
    assert forall c :: F.Walk(e.rhs, F.Use, c) == c;
    assert F.WalkAssign(e, cx) == F.Walk(e.lhs, F.Target, cx);
    StoreRuns(e, ps);
    assert RunParts(e, ps) == RunAssign(e, ps);
  }

  lemma StoreRuns(e: Expr, ps: PathState)
    requires e.Assign? && e.rhs.Literal? && !e.carries && ps.passing == {}
    ensures RunAssign(e, ps) == Run(e.lhs, F.Target, ps)
  {
    assert Toward(ps, {}, ps.limit) == ps;
    var ps1 := Back(Run(e.lhs, F.Target, ps), ps);
    var ps2 := TowardTarget(ps1, e);
    var ps3 := Run(e.rhs, F.Use, ps2);
    assert ps3 == ps2 && Back(ps3, ps) == ps1;
    assert RunAssign(e, ps) == Back(ps3, ps);
  }

  /** `move x; x` of a local that holds a value and is recorded as Copy. */
  lemma {:induction false} MoveThenRead(x: string, cx: F.Cx, ps: PathState)
    requires cx.ledger == [] && x in cx.locals && cx.locals[x].state.Owned? && cx.locals[x].copy
    requires Calm(ps) && !ps.misuse && Lookup(ps.frames, x).Some? && Lookup(ps.frames, x).value.status == Ready
    ensures
      var ss := [ExprStmt(Move(Var(x)))] + ([ExprStmt(Var(x))] + []);
      && F.WalkStmts(ss, cx).diag == cx.diag && F.WalkStmts(ss, cx).ledger == []
      && (RunStmts(ss, ps).misuse <==> !Lookup(ps.frames, x).value.copy)
  {
    var cx1, ps1 := cx.(point := cx.point + 1), Tick(MoveOut(ps, x));
    MoveStep(x, cx, ps);
    SetLookup(ps.frames, x, MovedOut, x);
    ReadStep(x, cx1, ps1);
    FirstStmt(ExprStmt(Move(Var(x))), [ExprStmt(Var(x))] + [], cx, ps);
    FirstStmt(ExprStmt(Var(x)), [], cx1, ps1);
    NoStmts(cx1.(point := cx1.point + 1), Tick(Read(ps1, x)));
  }

  function Fielded(x: string, ty: Ty, actual: Real): seq<Stmt> {
    [Let(Pattern(StructShape([FieldShape(x, actual, None)]), ty), Some(Literal), false)]
    + ([ExprStmt(Move(Var(x)))] + ([ExprStmt(Var(x))] + []))
  }

  /** `let S { x } = ..; move x; x` is accepted, and goes wrong exactly when the
      type of `x` is not Copy. */
  lemma {:induction false} StructBody(x: string, ty: Ty, actual: Real, choices: seq<nat>)
    ensures
      var b := Block(Fielded(x, ty, actual), None);
      Checked([], b).diag == [] && (PathThrough([], b, choices).misuse <==> !actual.copy)
  {
    var ss, last := Fielded(x, ty, actual), LastUses(Block(Fielded(x, ty, actual), None));
    var cx := F.Cx(map[], [[], []], [], last, 0, None, []);
    var ps := Open(Blank([], Block(ss, None), choices));
    var cx1, ps1 := FieldStep(x, ty, actual, cx, ps);
    MoveThenRead(x, cx1, ps1);
    FirstStmt(ss[0], [ExprStmt(Move(Var(x)))] + ([ExprStmt(Var(x))] + []), cx, ps);
    BodyEnds(ss, choices, cx, ps);
  }

  lemma {:induction false} FieldStep(x: string, ty: Ty, actual: Real, cx: F.Cx, ps: PathState) returns (cx1: F.Cx, ps1: PathState)
    requires ps.frames != []
    ensures var s := Let(Pattern(StructShape([FieldShape(x, actual, None)]), ty), Some(Literal), false);
            cx1 == F.WalkStmt(s, cx) && ps1 == RunStmt(s, ps)
    ensures cx1 == cx.(locals := cx1.locals, scopes := cx1.scopes) && x in cx1.locals
    ensures cx1.locals[x] == F.Local(F.Owned, false, true, false)
    ensures ps1 == ps.(frames := ps1.frames) && Lookup(ps1.frames, x) == Some(Slot(Ready, actual.copy, actual.reference, actual.reference || actual.carries))
  {
    var p, b := Pattern(StructShape([FieldShape(x, actual, None)]), ty), F.BindingOf(x, UnitTy, actual);
    OneField(FieldShape(x, actual, None));
    LetSteps(p, Literal, false, cx, ps);
    BindOne(b, false, cx, ps);
    cx1, ps1 := F.BindAll(cx, [b], false), DeclareAll(ps, [b], Ready);
    assert x in ps1.frames[|ps1.frames| - 1];
  }

  lemma OneField(f: FieldShape)
    requires f.sub.None?
    ensures F.DescendFields([f]) == [F.BindingOf(f.name, UnitTy, f.actual)]
  {
    assert [f][1..] == [];
    assert F.DescendFields([f]) == F.DescendField(f) + F.DescendFields([]);
  }

  // ----- shadowing -----

  function Shadowing(x: string, copy: bool): seq<Stmt> {
    [LetValue(x, copy, false)] + ([ExprStmt(Move(Var(x)))]
      + ([ExprStmt(BlockExpr(Block([LetValue(x, copy, false)] + [], None)))] + ([ExprStmt(Var(x))] + [])))
  }

  /** `let x = ..; move x; { let x = ..; } x` is accepted, and goes wrong exactly when
      the type of `x` is not Copy. */
  lemma {:induction false} ShadowBody(x: string, copy: bool, choices: seq<nat>)
    ensures
      var b := Block(Shadowing(x, copy), None);
      Checked([], b).diag == [] && (PathThrough([], b, choices).misuse <==> !copy)
  {
    var ss, last := Shadowing(x, copy), LastUses(Block(Shadowing(x, copy), None));
    var cx := F.Cx(map[], [[], []], [], last, 0, None, []);
    var ps := Open(Blank([], Block(ss, None), choices));
    var cx1, ps1 := ValueStep(x, copy, cx, ps);
    MoveStep(x, cx1, ps1);
    SetLookup(ps1.frames, x, MovedOut, x);
    var cx2, ps2 := F.WalkStmt(ExprStmt(Move(Var(x))), cx1), RunStmt(ExprStmt(Move(Var(x))), ps1);
    ShadowEnds(x, copy, cx2, ps2);
    var s2 := [ExprStmt(BlockExpr(Block([LetValue(x, copy, false)] + [], None)))] + ([ExprStmt(Var(x))] + []);
    FirstStmt(ExprStmt(Move(Var(x))), s2, cx1, ps1);
    FirstStmt(LetValue(x, copy, false), [ExprStmt(Move(Var(x)))] + s2, cx, ps);
    BodyEnds(ss, choices, cx, ps);
  }

  lemma {:induction false} ValueStep(x: string, copy: bool, cx: F.Cx, ps: PathState) returns (cx1: F.Cx, ps1: PathState)
    requires ps.frames != []
    ensures var s := LetValue(x, copy, false); cx1 == F.WalkStmt(s, cx) && ps1 == RunStmt(s, ps)
    ensures cx1 == cx.(locals := cx.locals[x := F.Local(F.Owned, false, copy, false)], scopes := cx1.scopes)
    ensures cx.scopes != [] ==> cx1.scopes != []
    ensures ps1 == ps.(frames := Declare(ps.frames, x, Slot(Ready, copy, false, false))) && ps1.frames != []
    ensures Lookup(ps1.frames, x) == Some(Slot(Ready, copy, false, false))
  {
    LetValueStep(x, copy, false, cx, ps);
    cx1, ps1 := F.WalkStmt(LetValue(x, copy, false), cx), RunStmt(LetValue(x, copy, false), ps);
    assert x in ps1.frames[|ps1.frames| - 1];
  }

  lemma {:induction false} ShadowEnds(x: string, copy: bool, cx: F.Cx, ps: PathState)
    requires cx.ledger == [] && cx.scopes != [] && Calm(ps) && !ps.misuse && Lookup(ps.frames, x).Some?
    ensures
      var ss := [ExprStmt(BlockExpr(Block([LetValue(x, copy, false)] + [], None)))] + ([ExprStmt(Var(x))] + []);
      && F.WalkStmts(ss, cx).diag == cx.diag && F.WalkStmts(ss, cx).ledger == []
      && (RunStmts(ss, ps).misuse <==> Lookup(ps.frames, x).value.status != Ready)
  {
    var s := ExprStmt(BlockExpr(Block([LetValue(x, copy, false)] + [], None)));
    var cx1, ps1 := InnerStep(x, copy, cx, ps);
    GoneStep(x, cx1, ps1);
    FirstStmt(s, [ExprStmt(Var(x))] + [], cx, ps);
    FirstStmt(ExprStmt(Var(x)), [], cx1, ps1);
    NoStmts(F.WalkStmt(ExprStmt(Var(x)), cx1), RunStmt(ExprStmt(Var(x)), ps1));
  }

  lemma {:induction false} InnerStep(x: string, copy: bool, cx: F.Cx, ps: PathState) returns (cx1: F.Cx, ps1: PathState)
    requires cx.ledger == [] && Calm(ps) && ps.frames != []
    ensures var s := ExprStmt(BlockExpr(Block([LetValue(x, copy, false)] + [], None)));
            cx1 == F.WalkStmt(s, cx) && ps1 == RunStmt(s, ps)
    ensures x !in cx1.locals && cx1.ledger == [] && cx1.diag == cx.diag && ps1 == ps
  {
    var b := Block([LetValue(x, copy, false)] + [], None);
    var ps0 := Whole(ps, {}, |Reads(BlockExpr(b))|);
    ExprSteps(BlockExpr(b), cx, ps);
    ForSteps(BlockExpr(b), {}, ps);
    BlockSteps(b, cx, ps0);
    InnerRuns(x, copy, cx, ps0);
    InnerWalks(x, copy, cx, ps0);
    cx1, ps1 := F.WalkBlock(b, cx), ps;
    assert Reads(BlockExpr(b)) == [];
  }

  lemma InnerRuns(x: string, copy: bool, cx: F.Cx, ps: PathState)
    requires Calm(ps)
    ensures RunBlock(Block([LetValue(x, copy, false)] + [], None), ps) == ps
    ensures ReadsBlock(Block([LetValue(x, copy, false)] + [], None)) == []
  {
    var s := LetValue(x, copy, false);
    FirstStmt(s, [], cx, Open(ps));
    LetValueStep(x, copy, false, cx, Open(ps));
    NoStmts(cx, RunStmt(s, Open(ps)));
    assert Close(RunStmt(s, Open(ps))).frames == ps.frames;
    assert ([s] + [])[1..] == [] && ReadsStmt(s) == [];
  }

  lemma InnerWalks(x: string, copy: bool, cx: F.Cx, ps: PathState)
    requires cx.ledger == [] && ps.frames != []
    ensures var cx1 := F.WalkBlock(Block([LetValue(x, copy, false)] + [], None), cx);
            x !in cx1.locals && cx1.ledger == [] && cx1.diag == cx.diag
  {
    FirstStmt(LetValue(x, copy, false), [], F.Push(cx), ps);
    LetValueStep(x, copy, false, F.Push(cx), ps);
    var inner := F.WalkStmt(LetValue(x, copy, false), F.Push(cx));
    NoStmts(inner, ps);
    QuietPop(inner);
    assert inner.scopes[|inner.scopes| - 1] == [x];
  }

  lemma BlockSteps(b: Block, cx: F.Cx, ps: PathState)
    ensures F.Walk(BlockExpr(b), F.Use, cx) == F.WalkBlock(b, cx) && Run(BlockExpr(b), F.Use, ps) == RunBlock(b, ps)
  {
  }

  /** A name that the walker no longer knows. */
  lemma GoneStep(x: string, cx: F.Cx, ps: PathState)
    requires cx.ledger == [] && x !in cx.locals && Calm(ps) && Lookup(ps.frames, x).Some?
    ensures F.WalkStmt(ExprStmt(Var(x)), cx) == cx.(point := cx.point + 1)
    ensures RunStmt(ExprStmt(Var(x)), ps) == Tick(Read(ps, x))
  {
    ReadSees(x, cx, ps);
    ExprSteps(Var(x), cx, ps);
    assert F.Walk(Var(x), F.Use, cx) == F.WalkPath(cx, [x], F.Use);
    NothingHeld(x, F.Advance(cx));
  }

  // ----- index operands -----

  function Indexing(a: string, i: string, copy: bool): seq<Stmt> {
    [LetValue(a, false, false)] + ([LetValue(i, copy, false)] + ([ExprStmt(Move(Var(i)))]
      + ([ExprStmt(Borrow(false, Index(Var(a), Var(i))))] + [])))
  }

  /** `let a = ..; let i = ..; move i; &a[i]` is accepted, and goes wrong exactly when
      the type of `i` is not Copy. */
  lemma {:induction false} IndexBody(a: string, i: string, copy: bool, choices: seq<nat>)
    requires a != i
    ensures
      var b := Block(Indexing(a, i, copy), None);
      Checked([], b).diag == [] && (PathThrough([], b, choices).misuse <==> !copy)
  {
    var ss, last := Indexing(a, i, copy), LastUses(Block(Indexing(a, i, copy), None));
    var cx := F.Cx(map[], [[], []], [], last, 0, None, []);
    var ps := Open(Blank([], Block(ss, None), choices));
    var cx1, ps1 := ValueStep(a, false, cx, ps);
    var cx2, ps2 := ValueStep(i, copy, cx1, ps1);
    OtherKept(ps1.frames, i, Slot(Ready, copy, false, false), a);
    IndexEnds(a, i, cx2, ps2);
    var s2 := [ExprStmt(Move(Var(i)))] + ([ExprStmt(Borrow(false, Index(Var(a), Var(i))))] + []);
    FirstStmt(LetValue(i, copy, false), s2, cx1, ps1);
    FirstStmt(LetValue(a, false, false), [LetValue(i, copy, false)] + s2, cx, ps);
    BodyEnds(ss, choices, cx, ps);
  }

  lemma {:induction false} IndexEnds(a: string, i: string, cx: F.Cx, ps: PathState)
    requires a != i && cx.ledger == [] && cx.pending.None? && a in cx.locals && cx.locals[a].state.Owned?
    requires i in cx.locals && cx.locals[i].state.Owned? && Calm(ps) && !ps.misuse && Usable(ps, a)
    requires Lookup(ps.frames, a).Some? && Lookup(ps.frames, i).Some? && Usable(ps, i)
    ensures
      var ss := [ExprStmt(Move(Var(i)))] + ([ExprStmt(Borrow(false, Index(Var(a), Var(i))))] + []);
      && F.WalkStmts(ss, cx).diag == cx.diag && (forall r :: r in F.WalkStmts(ss, cx).ledger ==> r.borrower.None?)
      && (RunStmts(ss, ps).misuse <==> !Lookup(ps.frames, i).value.copy)
  {
    var s := ExprStmt(Borrow(false, Index(Var(a), Var(i))));
    MoveStep(i, cx, ps);
    SetLookup(ps.frames, i, MovedOut, i);
    SetLookup(ps.frames, i, MovedOut, a);
    var cx1, ps1 := F.WalkStmt(ExprStmt(Move(Var(i))), cx), RunStmt(ExprStmt(Move(Var(i))), ps);
    ElementStep(a, i, cx1, ps1);
    NoStmts(F.WalkStmt(s, cx1), RunStmt(s, ps1));
    FirstStmt(s, [], cx1, ps1);
    FirstStmt(ExprStmt(Move(Var(i))), [s] + [], cx, ps);
  }

  lemma OtherKept(fs: Frames, x: string, slot: Slot, y: string)
    requires fs != [] && x != y
    ensures Lookup(Declare(fs, x, slot), y) == Lookup(fs, y)
  {
    var gs, n := Declare(fs, x, slot), |fs| - 1;
    assert gs[..n] == fs[..n];
  }

  lemma {:induction false} ElementStep(a: string, i: string, cx: F.Cx, ps: PathState)
    requires cx.ledger == [] && cx.pending.None? && a in cx.locals && cx.locals[a].state.Owned?
    requires !ps.misuse && Usable(ps, a) && Lookup(ps.frames, a).Some?
    ensures
      var s := ExprStmt(Borrow(false, Index(Var(a), Var(i))));
      && F.WalkStmt(s, cx).diag == cx.diag && (forall r :: r in F.WalkStmt(s, cx).ledger ==> r.borrower.None?)
      && (RunStmt(s, ps).misuse <==> !Usable(ps, i))
  {
    var e := Borrow(false, Index(Var(a), Var(i)));
    var ps0 := Whole(ps, {}, |Reads(e)|);
    ExprSteps(e, cx, ps);
    ForSteps(e, {}, ps);
    BorrowSteps(e, cx, ps0);
    ElementWalk(a, i, cx);
    ElementRun(a, i, ps0);
  }

  lemma ElementWalk(a: string, i: string, cx: F.Cx)
    requires cx.ledger == [] && cx.pending.None? && a in cx.locals && cx.locals[a].state.Owned?
    ensures var r := F.WalkBorrow(Borrow(false, Index(Var(a), Var(i))), cx);
            r.diag == cx.diag && forall l :: l in r.ledger ==> l.borrower.None?
  {
    var inner, p := Index(Var(a), Var(i)), Place(a, [AnyIndex]);
    ElementPlace(a, i, cx.locals.Keys);
    F.PlaceIsTruncated(inner, cx.locals.Keys);
    PointsShrink(inner, F.TryBorrow(cx, p, F.Shared));
  }

  lemma ElementRun(a: string, i: string, ps: PathState)
    requires !ps.misuse && Usable(ps, a) && Lookup(ps.frames, a).Some?
    ensures RunBorrow(Borrow(false, Index(Var(a), Var(i))), ps).misuse <==> !Usable(ps, i)
  {
    var inner, ps1 := Index(Var(a), Var(i)), Take(ps, Place(a, [AnyIndex]), F.Shared);
    ElementPlace(a, i, InScope(ps.frames));
    OneOperand(a, i);
    PlaceMisuse(inner, ps1);
    MisreadSame([i], ps, ps1);
    assert i in [i];
  }

  lemma OneOperand(a: string, i: string)
    ensures OperandNames(Index(Var(a), Var(i))) == [i] && F.Visible(Index(Var(a), Var(i)))
  {
    assert OperandNames(Var(a)) == [] && Reads(Var(i)) == [i];
  }

  lemma BorrowSteps(e: Expr, cx: F.Cx, ps: PathState)
    requires e.Borrow?
    ensures F.Walk(e, F.Use, cx) == F.WalkBorrow(e, cx) && Run(e, F.Use, ps) == RunBorrow(e, ps)
  {
    assert RunParts(e, ps) == RunBorrow(e, ps);
  }

  lemma ElementPlace(a: string, i: string, bound: set<string>)
    requires a in bound
    ensures F.FullPlace(Index(Var(a), Var(i)), bound) == Some(Place(a, [AnyIndex]))
  {
    RootPlace(a, bound);
    assert Extend(Place(a, []), AnyIndex) == Place(a, [AnyIndex]);
  }

  lemma RootPlace(x: string, bound: set<string>)
    requires x in bound
    ensures F.FullPlace(Var(x), bound) == F.PlaceOf(Var(x), bound) == Some(Place(x, []))
  {
    assert [x][1..] == [];
  }

  lemma {:induction false} PointsShrink(e: Expr, cx: F.Cx)
    ensures forall r :: r in F.PointsOnly(e, cx).ledger ==> r in cx.ledger
    decreases e
  {
    match e
    case Field(r, _) => PointsShrink(r, cx);
    case Unary(_, _, r) => PointsShrink(r, cx);
    case Index(r, i) =>
      PointsShrink(r, cx);
      PointsShrink(i, F.PointsOnly(r, cx));
    case _ =>
  }
}
