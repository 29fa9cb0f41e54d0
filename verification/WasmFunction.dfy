/** Whole functions: parameters, results, divergence, and the two places where
    the emitted code is known to part from the language. */
module WasmFunction {
  import opened Wrappers
  import opened ScalarHir
  import opened WasmGen
  import opened WasmGenProof
  import opened Fuel
  import opened I32
  import W = WasmCore

  datatype Fn = Fn(params: seq<string>, body: Block)

  /** `FnEmitter.__init__`: one scope holding the parameters, in order. */
  function Params(names: seq<string>): (em: Emitter)
    ensures em.next == |names| && |em.scopes| == 1
  {
    if names == [] then Emitter(0, [map[]])
    else DeclareSlot(Params(names[..|names| - 1]), names[|names| - 1])
  }

  function ParamEnv(names: seq<string>, args: seq<Val>): (env: Env)
    requires |names| == |args|
    ensures |env| == 1
  {
    if names == [] then [map[]]
    else Declare(ParamEnv(names[..|names| - 1], args[..|names| - 1]), names[|names| - 1], Some(args[|names| - 1]))
  }

  function Zeros(n: nat): (ws: seq<Word>)
    ensures |ws| == n
  {
    seq(n, _ => 0)
  }

  function Reps(args: seq<Val>): seq<Word> {
    seq(|args|, i requires 0 <= i < |args| => Rep(args[i]))
  }

  /** A call: arguments in the first slots, zeroes in the declared extra ones. */
  function Call(fn: Fn, args: seq<Val>, fuel: nat): W.Outcome
    requires |args| == |fn.params|
  {
    var em := Params(fn.params);
    var (code, em1) := CompileBlock(fn.body, em);
    W.Exec(code, W.State([], Reps(args) + Zeros(em1.next - |fn.params|)), fuel)
  }

  function Meaning(fn: Fn, args: seq<Val>, fuel: nat): Res
    requires |args| == |fn.params|
  {
    EvalBlock(fn.body, ParamEnv(fn.params, args), fuel, false)
  }

  lemma {:induction false} ParamsHold(names: seq<string>, args: seq<Val>, extra: seq<Word>)
    requires |names| == |args|
    ensures SlotsOk(Params(names))
    ensures Holds(Params(names).scopes, ParamEnv(names, args), Reps(args) + extra)
    decreases |names|
  {
    if names != [] {
      var n := |names| - 1;
      var w := Rep(args[n]);
      ParamsHold(names[..n], args[..n], [w] + extra);
      var em, env, locals := Params(names[..n]), ParamEnv(names[..n], args[..n]), Reps(args[..n]) + ([w] + extra);
      SlotsDeclare(em, names[n]);
      HoldsDeclare(em, env, locals, names[n], Some(args[n]), w);
      assert locals[n := w] == Reps(args) + extra;
    }
  }

  /** The outcome of a call is the meaning of the function: the value if there
      is one, in both cases of leaving; the same trap; the same exhaustion. */
  ghost predicate CallAgrees(r: Res, o: W.Outcome) {
    match r
    case Ok(v, _) => o.Done? && o.st.stack == RepOpt(v)
    case Returned(v) =>
      o.Returned? && (v.Some? ==> |o.st.stack| > 0 && o.st.stack[|o.st.stack| - 1] == Rep(v.value))
    case Trapped => o == W.Trap
    case OutOfFuel => o == W.OutOfFuel
    case Stuck => true
    case _ => false
  }

  /** Meaning preservation for every function, argument list and fuel. */
  lemma FunctionCorrect(fn: Fn, args: seq<Val>, fuel: nat)
    requires |args| == |fn.params| && FitsBlock(fn.body, false)
    ensures CallAgrees(Meaning(fn, args, fuel), Call(fn, args, fuel))
  {
    var em := Params(fn.params);
    var extra := Zeros(CompileBlock(fn.body, em).1.next - |fn.params|);
    ParamsHold(fn.params, args, extra);
    BlockCorrect(fn.body, em, ParamEnv(fn.params, args), fuel, [], Reps(args) + extra, 0, false);
  }

  /** Out of fuel below `n`, and this one result from `n` on. */
  ghost predicate MeansFrom(fn: Fn, args: seq<Val>, n: nat, r: Res)
    requires |args| == |fn.params|
  {
    !r.OutOfFuel? && forall fuel: nat :: Meaning(fn, args, fuel) == if fuel < n then OutOfFuel else r
  }

  ghost predicate CallsFrom(fn: Fn, args: seq<Val>, n: nat, o: W.Outcome)
    requires |args| == |fn.params|
  {
    !o.OutOfFuel? && forall fuel: nat :: Call(fn, args, fuel) == if fuel < n then W.OutOfFuel else o
  }

  /** Either neither ever ends, or both have one result each, from the same fuel on,
      and the results agree. */
  lemma {:induction false} DivergeTogether(fn: Fn, args: seq<Val>)
    requires |args| == |fn.params| && FitsBlock(fn.body, false)
    requires forall fuel :: !Meaning(fn, args, fuel).Stuck?
    ensures
      || (forall fuel :: Meaning(fn, args, fuel).OutOfFuel? && Call(fn, args, fuel).OutOfFuel?)
      || exists n, r, o :: MeansFrom(fn, args, n, r) && CallsFrom(fn, args, n, o) && CallAgrees(r, o)
  {
    forall fuel: nat ensures Meaning(fn, args, fuel).OutOfFuel? <==> Call(fn, args, fuel).OutOfFuel?
    {
      FunctionCorrect(fn, args, fuel);
    }
    if fuel: nat :| !Meaning(fn, args, fuel).OutOfFuel? {
      var n := FirstEnd(fn, args, fuel);
      var r, o := Meaning(fn, args, n), Call(fn, args, n);
      forall k: nat
        ensures Meaning(fn, args, k) == (if k < n then OutOfFuel else r) && Call(fn, args, k) == if k < n then W.OutOfFuel else o
      {
        if k < n {
          if !Meaning(fn, args, k).OutOfFuel? { MeaningMore(fn, args, k, n - 1); }
        } else {
          MeaningMore(fn, args, n, k);
          CallMore(fn, args, n, k);
        }
      }
      FunctionCorrect(fn, args, n);
      assert MeansFrom(fn, args, n, r) && CallsFrom(fn, args, n, o) && CallAgrees(r, o);
    }
  }

  lemma MeaningMore(fn: Fn, args: seq<Val>, fuel: nat, more: nat)
    requires |args| == |fn.params| && fuel <= more && !Meaning(fn, args, fuel).OutOfFuel?
    ensures Meaning(fn, args, more) == Meaning(fn, args, fuel)
  {
    BlockMore(fn.body, ParamEnv(fn.params, args), fuel, more, false);
  }

  lemma CallMore(fn: Fn, args: seq<Val>, fuel: nat, more: nat)
    requires |args| == |fn.params| && fuel <= more && !Call(fn, args, fuel).OutOfFuel?
    ensures Call(fn, args, more) == Call(fn, args, fuel)
  {
    var em := Params(fn.params);
    var (code, em1) := CompileBlock(fn.body, em);
    ExecMore(code, W.State([], Reps(args) + Zeros(em1.next - |fn.params|)), fuel, more);
  }

  lemma {:induction false} FirstEnd(fn: Fn, args: seq<Val>, fuel: nat) returns (n: nat)
    requires |args| == |fn.params| && !Meaning(fn, args, fuel).OutOfFuel?
    ensures n <= fuel && !Meaning(fn, args, n).OutOfFuel? && (n > 0 ==> Meaning(fn, args, n - 1).OutOfFuel?)
    decreases fuel
  {
    if fuel == 0 || Meaning(fn, args, fuel - 1).OutOfFuel? { n := fuel; } else { n := FirstEnd(fn, args, fuel - 1); }
  }

  // ----- short-circuit operators -----

  /** No effect, no trap, no loop. */
  predicate Pure(e: Expr) {
    match e
    case IntLit(_) => true
    case BoolLit(_) => true
    case Ident(_) => true
    case Un(_, r) => Pure(r)
    case Bin(op, l, r) => op != Divide && op != Modulo && Pure(l) && Pure(r)
    case _ => false
  }

  lemma {:induction false} PureIsInert(e: Expr, env: Env, fuel: nat, lazy: bool)
    requires Pure(e)
    ensures var r := Eval(e, env, fuel, lazy); r.Stuck? || (r.Ok? && r.val.Some? && r.env == env)
    decreases e
  {
    match e
    case Un(_, r) => PureIsInert(r, env, fuel, lazy);
    case Bin(_, l, r) =>
      PureIsInert(l, env, fuel, lazy);
      PureIsInert(r, env, fuel, lazy);
    case _ =>
  }

  /** At an operator its left operand decides, evaluating the right operand as
      well changes nothing iff that operand completes with a boolean and leaves
      the variables alone. */
  lemma EagerIsLazyIff(op: BinOp, l: Expr, r: Expr, env: Env, fuel: nat)
    requires Eval(l, env, fuel, false).Ok? && Eval(l, env, fuel, false) == Eval(l, env, fuel, true)
    requires Eval(l, env, fuel, false).val.Some? && Decided(op, Eval(l, env, fuel, false).val.value)
    ensures
      var env1 := Eval(l, env, fuel, false).env;
      var right := Eval(r, env1, fuel, false);
      Eval(Bin(op, l, r), env, fuel, false) == Eval(Bin(op, l, r), env, fuel, true)
      <==> right.Ok? && right.val.Some? && right.val.value.B? && right.env == env1
  {
  }

  /** The right operands of `&&` and `||` are pure. */
  predicate PureRights(e: Expr)
    decreases e
  {
    match e
    case Bin(op, l, r) => PureRights(l) && PureRights(r) && (op == AndAnd || op == OrOr ==> Pure(r))
    case Un(_, r) => PureRights(r)
    case If(c, thn) => PureRights(c) && PureRightsIn(thn)
    case IfElse(c, thn, els) => PureRights(c) && PureRightsIn(thn) && PureRights(els)
    case BlockExpr(b) => PureRightsIn(b)
    case While(c, body) => PureRights(c) && PureRightsIn(body)
    case Return(Some(r)) => PureRights(r)
    case _ => true
  }

  predicate PureRightsIn(b: Block)
    decreases b
  {
    PureRightsAll(b.stmts) && (b.tail.Some? ==> PureRights(b.tail.value))
  }

  predicate PureRightsAll(ss: seq<Stmt>)
    decreases ss
  {
    ss == [] || (PureRightsStmt(ss[0]) && PureRightsAll(ss[1..]))
  }

  predicate PureRightsStmt(s: Stmt)
    decreases s
  {
    match s
    case Let(_, init) => init.Some? ==> PureRights(init.value)
    case LetPattern(init) => init.Some? ==> PureRights(init.value)
    case Assign(_, rhs) => PureRights(rhs)
    case ExprStmt(e) => PureRights(e)
  }

  /** With pure right operands, short-circuit evaluation gives what eager
      evaluation gives, so the emitted code also preserves that meaning. */
  lemma {:induction false} LazyAgrees(e: Expr, env: Env, fuel: nat)
    requires PureRights(e) && !Eval(e, env, fuel, false).Stuck?
    ensures Eval(e, env, fuel, true) == Eval(e, env, fuel, false)
    decreases fuel, e, 1
  {
    match e
    case Bin(_, _, _) => LazyBin(e, env, fuel);
    case Un(_, r) => LazyAgrees(r, env, fuel);
    case If(c, thn) =>
      LazyAgrees(c, env, fuel);
      var rc := Eval(c, env, fuel, false);
      if rc.Ok? && rc.val == Some(B(true)) { LazyBlock(thn, rc.env, fuel); }
    case IfElse(_, _, _) => LazyIfElse(e, env, fuel);
    case BlockExpr(b) => LazyBlock(b, env, fuel);
    case While(_, _) => LazyWhile(e, env, fuel);
    case Return(Some(r)) => LazyAgrees(r, env, fuel);
    case _ =>
  }

  lemma {:induction false} LazyBin(e: Expr, env: Env, fuel: nat)
    requires e.Bin? && PureRights(e) && !Eval(e, env, fuel, false).Stuck?
    ensures Eval(e, env, fuel, true) == Eval(e, env, fuel, false)
    decreases fuel, e, 0
  {
    LazyAgrees(e.lhs, env, fuel);
    var rl := Eval(e.lhs, env, fuel, false);
    if rl.Ok? {
      LazyAgrees(e.rhs, rl.env, fuel);
      if Decided(e.op, rl.val.value) { PureIsInert(e.rhs, rl.env, fuel, false); }
    }
  }

  lemma {:induction false} LazyIfElse(e: Expr, env: Env, fuel: nat)
    requires e.IfElse? && PureRights(e) && !Eval(e, env, fuel, false).Stuck?
    ensures Eval(e, env, fuel, true) == Eval(e, env, fuel, false)
    decreases fuel, e, 0
  {
    LazyAgrees(e.cond, env, fuel);
    var rc := Eval(e.cond, env, fuel, false);
    if rc.Ok? {
      if rc.val == Some(B(true)) { LazyBlock(e.thn, rc.env, fuel); } else { LazyAgrees(e.els, rc.env, fuel); }
    }
  }

  lemma {:induction false} LazyWhile(e: Expr, env: Env, fuel: nat)
    requires e.While? && PureRights(e) && !Eval(e, env, fuel, false).Stuck?
    ensures Eval(e, env, fuel, true) == Eval(e, env, fuel, false)
    decreases fuel, e, 0
  {
    if fuel > 0 {
      LazyAgrees(e.cond, env, fuel);
      var rc := Eval(e.cond, env, fuel, false);
      if rc.Ok? && rc.val == Some(B(true)) {
        LazyBlock(e.body, rc.env, fuel);
        match EvalBlock(e.body, rc.env, fuel, false)
        case Ok(_, env2) => LazyWhile(e, env2, fuel - 1);
        case Continued(env2) => LazyWhile(e, env2[..Min(|env|, |env2|)], fuel - 1);
        case _ =>
      }
    }
  }

  lemma {:induction false} LazyBlock(b: Block, env: Env, fuel: nat)
    requires PureRightsIn(b) && !EvalBlock(b, env, fuel, false).Stuck?
    ensures EvalBlock(b, env, fuel, true) == EvalBlock(b, env, fuel, false)
    decreases fuel, b
  {
    LazyStmts(b.stmts, env + [map[]], fuel);
    var rs := EvalStmts(b.stmts, env + [map[]], fuel, false);
    if rs.Ok? && b.tail.Some? { LazyAgrees(b.tail.value, rs.env, fuel); }
  }

  lemma {:induction false} LazyStmts(ss: seq<Stmt>, env: Env, fuel: nat)
    requires PureRightsAll(ss) && !EvalStmts(ss, env, fuel, false).Stuck?
    ensures EvalStmts(ss, env, fuel, true) == EvalStmts(ss, env, fuel, false)
    decreases fuel, ss
  {
    if ss != [] {
      LazyStmt(ss[0], env, fuel);
      var r := EvalStmt(ss[0], env, fuel, false);
      if r.Ok? { LazyStmts(ss[1..], r.env, fuel); }
    }
  }

  lemma {:induction false} LazyStmt(s: Stmt, env: Env, fuel: nat)
    requires PureRightsStmt(s) && !EvalStmt(s, env, fuel, false).Stuck?
    ensures EvalStmt(s, env, fuel, true) == EvalStmt(s, env, fuel, false)
    decreases fuel, s
  {
    match s
    case Let(_, init) => if init.Some? { LazyAgrees(init.value, env, fuel); }
    case LetPattern(init) => if init.Some? { LazyAgrees(init.value, env, fuel); }
    case Assign(_, rhs) => LazyAgrees(rhs, env, fuel);
    case ExprStmt(e) => LazyAgrees(e, env, fuel);
  }

  /** `false && { x = 1; true }` assigns in the emitted code, whatever `x` is. */
  lemma EagerRightOperandShows(env: Env, x: string, d: nat, fuel: nat)
    requires Find(env, x) == Some(d)
    ensures
      var e := Bin(AndAnd, BoolLit(false), BlockExpr(Block([Assign(x, IntLit(1))], Some(BoolLit(true)))));
      && Eval(e, env, fuel, true) == Ok(Some(B(false)), env)
      && Eval(e, env, fuel, false) == Ok(Some(B(false)), env[d := env[d][x := Some(I(1))]])
  {
    AssignInBlock(Block([Assign(x, IntLit(1))], Some(BoolLit(true))), Assign(x, IntLit(1)), env, d, fuel);
  }

  lemma AssignInBlock(b: Block, s: Stmt, env: Env, d: nat, fuel: nat)
    requires s.Assign? && s.rhs == IntLit(1) && Find(env, s.x) == Some(d)
    requires b.stmts == [s] && b.tail == Some(BoolLit(true))
    ensures EvalBlock(b, env, fuel, false) == Ok(Some(B(true)), env[d := env[d][s.x := Some(I(1))]])
  {
    var inner, after := env + [map[]], env[d := env[d][s.x := Some(I(1))]];
    assert inner[..|env|] == env;
    assert inner[d := inner[d][s.x := Some(I(1))]] == after + [map[]];
    assert EvalStmt(s, inner, fuel, false) == Ok(None, after + [map[]]);
    assert b.stmts[1..] == [];
    assert EvalStmts(b.stmts, inner, fuel, false) == Ok(None, after + [map[]]);
    assert (after + [map[]])[..|after|] == after;
  }

  // ----- outside the fragment -----

  /** A statement such as `if c { .. }` is followed by a `drop` although it
      leaves no value: whenever it completes, the emitted code underflows. */
  lemma ValuelessStatementUnderflows(e: Expr, em: Emitter, env: Env, fuel: nat, locals: seq<Word>)
    requires Fits(e, false) && ArityOf(e) == Zero && ProducesValue(e)
    requires |em.scopes| > 0 && Ready(em, env, locals, Compile(e, em).1.next, 0)
    requires Eval(e, env, fuel, false).Ok?
    ensures !FitsStmt(ExprStmt(e), false)
    ensures W.Exec(CompileStmt(ExprStmt(e), em).0, W.State([], locals), fuel) == W.Stuck
  {
    ExprCorrect(e, em, env, fuel, [], locals, 0, false);
    var ce := Compile(e, em).0;
    var o := W.Exec(ce, W.State([], locals), fuel);
    Then(ce, [W.Drop], W.State([], locals), fuel);
    W.ExecOne(W.Drop, o.st, fuel);
  }

  /** `while true { if true { break; } }` */
  predicate BreaksUnderIf(e: Expr) {
    && e.While? && e.cond == BoolLit(true) && e.body.stmts == [] && e.body.tail.Some? && BreakingIf(e.body.tail.value)
  }

  predicate BreakingIf(e: Expr) {
    e.If? && e.cond == BoolLit(true) && e.thn.stmts == [ExprStmt(Break)] && e.thn.tail.None?
  }

  /** `Break` emits `br 1`, which under an `if` names the loop: the body stops
      at once, the emitted code never does. */
  lemma BreakUnderIfLoops(e: Expr, em: Emitter, env: Env, locals: seq<Word>, fuel: nat)
    requires BreaksUnderIf(e)
    ensures !Fits(e, false)
    ensures fuel > 0 ==> Eval(e, env, fuel, false) == Ok(None, env)
    ensures W.Exec(Compile(e, em).0, W.State([], locals), fuel) == W.OutOfFuel
  {
    var inner := e.body.tail.value;
    NoBreakInBranch(inner, ExprStmt(Break));
    NoSuchTail(e, inner);
    if fuel > 0 { BreakStops(e, inner, env, fuel); }
    var lb := BreakCode(e, em);
    WhileUnrolls(lb, [], locals, fuel);
    BreakSpins(lb, locals, fuel);
  }

  lemma NoBreakInBranch(e: Expr, s: Stmt)
    requires e.If? && s == ExprStmt(Break) && e.thn.stmts == [s]
    ensures !Fits(e, true)
  {
    assert !FitsStmt(s, false);
    assert !FitsStmts(e.thn.stmts, false);
    assert !FitsBlock(e.thn, false);
  }

  lemma NoSuchTail(e: Expr, tail: Expr)
    requires e.While? && e.body.tail == Some(tail) && !Fits(tail, true)
    ensures !Fits(e, false)
  {
    assert !FitsBlock(e.body, true);
  }

  lemma BreakStops(e: Expr, inner: Expr, env: Env, fuel: nat)
    requires fuel > 0 && BreaksUnderIf(e) && inner == e.body.tail.value
    ensures Eval(e, env, fuel, false) == Ok(None, env)
  {
    var one, two := env + [map[]], env + [map[]] + [map[]];
    IfBreaks(inner, one, fuel);
    assert EvalStmts(e.body.stmts, one, fuel, false) == Ok(None, one);
    assert EvalBlock(e.body, env, fuel, false) == Broke(two);
    assert two[..|env|] == env;
  }

  lemma IfBreaks(e: Expr, env: Env, fuel: nat)
    requires BreakingIf(e)
    ensures Eval(e, env, fuel, false) == Broke(env + [map[]])
  {
    var s, inner := e.thn.stmts[0], env + [map[]];
    assert EvalStmt(s, inner, fuel, false) == Broke(inner);
    assert EvalStmts(e.thn.stmts, inner, fuel, false) == Broke(inner);
  }

  lemma {:induction false} BreakCode(e: Expr, em: Emitter) returns (lb: seq<W.Instr>)
    requires BreaksUnderIf(e)
    ensures lb == LoopBody([W.Const(1)], [W.Const(1), W.If([W.Br(1)])])
    ensures Compile(e, em).0 == [W.Block([W.Loop(lb)])]
  {
    var inner, em1 := e.body.tail.value, Emitter(em.next, em.scopes + [map[]]);
    BranchCode(inner, em1);
    assert CompileStmts(e.body.stmts, em1) == ([], em1);
    assert [] + Compile(inner, em1).0 == Compile(inner, em1).0;
    lb := LoopBody([W.Const(1)], CompileBlock(e.body, em).0);
    LoopCode(e, em);
  }

  lemma LoopCode(e: Expr, em: Emitter)
    requires e.While? && e.cond == BoolLit(true)
    ensures Compile(e, em).0 == [W.Block([W.Loop(LoopBody([W.Const(1)], CompileBlock(e.body, em).0))])]
  {
  }

  lemma BranchCode(e: Expr, em: Emitter)
    requires BreakingIf(e)
    ensures Compile(e, em).0 == [W.Const(1), W.If([W.Br(1)])]
  {
    var s, em1 := e.thn.stmts[0], Emitter(em.next, em.scopes + [map[]]);
    assert CompileStmt(s, em1) == ([W.Br(1)], em1);
    assert CompileStmts(e.thn.stmts, em1).0 == [W.Br(1)] + CompileStmts(e.thn.stmts[1..], em1).0;
    assert CompileBlock(e.thn, em).0 == [W.Br(1)];
    assert [W.Const(1)] + [W.If([W.Br(1)])] == [W.Const(1), W.If([W.Br(1)])];
  }

  lemma {:induction false} BreakSpins(lb: seq<W.Instr>, locals: seq<Word>, fuel: nat)
    requires lb == LoopBody([W.Const(1)], [W.Const(1), W.If([W.Br(1)])])
    ensures W.Step(W.Loop(lb), W.State([], locals), fuel) == W.OutOfFuel
    decreases fuel
  {
    if fuel > 0 {
      BreakPass(lb, locals, fuel);
      BreakSpins(lb, locals, fuel - 1);
    }
  }

  lemma BreakPass(lb: seq<W.Instr>, locals: seq<Word>, fuel: nat)
    requires lb == LoopBody([W.Const(1)], [W.Const(1), W.If([W.Br(1)])])
    ensures W.Exec(lb, W.State([], locals), fuel) == W.Branch(0, W.State([], locals))
  {
    var s0, s1 := W.State([], locals), W.State([1], locals);
    var body := [W.Const(1), W.If([W.Br(1)])];
    var test := [W.Eqz, W.BrIf(1)] + (body + [W.Br(0)]);
    W.ExecOne(W.Const(1), s0, fuel);
    Then([W.Const(1)], test, s0, fuel);
    LoopTest(body, s1, fuel);
    BranchRuns(body, locals, fuel);
  }

  lemma BranchRuns(body: seq<W.Instr>, locals: seq<Word>, fuel: nat)
    requires body == [W.Const(1), W.If([W.Br(1)])]
    ensures W.Exec(body + [W.Br(0)], W.State([], locals), fuel) == W.Branch(0, W.State([], locals))
  {
    var s0, s1 := W.State([], locals), W.State([1], locals);
    assert body + [W.Br(0)] == [W.Const(1)] + ([W.If([W.Br(1)])] + [W.Br(0)]);
    W.ExecOne(W.Const(1), s0, fuel);
    Then([W.Const(1)], [W.If([W.Br(1)])] + [W.Br(0)], s0, fuel);
    W.ExecOne(W.Br(1), s0, fuel);
    W.ExecOne(W.If([W.Br(1)]), s1, fuel);
    Then([W.If([W.Br(1)])], [W.Br(0)], s1, fuel);
    assert s1.stack[..0] == [];
  }
}
