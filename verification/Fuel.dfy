/** Fuel only bounds how long: what ends within a budget ends the same way within
    every larger one. */
module Fuel {
  import opened Wrappers
  import opened ScalarHir
  import W = WasmCore

  // ----- the machine -----

  lemma {:induction false} ExecMore(code: seq<W.Instr>, st: W.State, fuel: nat, more: nat)
    requires fuel <= more && !W.Exec(code, st, fuel).OutOfFuel?
    ensures W.Exec(code, st, more) == W.Exec(code, st, fuel)
    decreases fuel, code
  {
    if code != [] {
      StepMore(code[0], st, fuel, more);
      var o := W.Step(code[0], st, fuel);
      if o.Done? { ExecMore(code[1..], o.st, fuel, more); }
    }
  }

  lemma {:induction false} StepMore(i: W.Instr, st: W.State, fuel: nat, more: nat)
    requires fuel <= more && !W.Step(i, st, fuel).OutOfFuel?
    ensures W.Step(i, st, more) == W.Step(i, st, fuel)
    decreases fuel, i
  {
    var n := |st.stack|;
    match i
    case If(thn) => if n > 0 && st.stack[n - 1] != 0 { ExecMore(thn, W.State([], st.locals), fuel, more); }
    case IfElse(thn, els) =>
      if n > 0 { ExecMore(if st.stack[n - 1] != 0 then thn else els, W.State([], st.locals), fuel, more); }
    case Block(body) => ExecMore(body, W.State([], st.locals), fuel, more);
    case Loop(body) =>
      ExecMore(body, W.State([], st.locals), fuel, more);
      var o := W.Exec(body, W.State([], st.locals), fuel);
      if o.Branch? && o.depth == 0 { StepMore(i, W.State(st.stack, o.st.locals), fuel - 1, more - 1); }
    case _ =>
  }

  // ----- direct evaluation -----

  lemma {:induction false} EvalMore(e: Expr, env: Env, fuel: nat, more: nat, lazy: bool)
    requires fuel <= more && !Eval(e, env, fuel, lazy).OutOfFuel?
    ensures Eval(e, env, more, lazy) == Eval(e, env, fuel, lazy)
    decreases fuel, e, 1
  {
    match e
    case Bin(op, l, r) =>
      EvalMore(l, env, fuel, more, lazy);
      var a := Eval(l, env, fuel, lazy);
      if a.Ok? && a.val.Some? && !(lazy && Decided(op, a.val.value)) { EvalMore(r, a.env, fuel, more, lazy); }
    case Un(_, r) => EvalMore(r, env, fuel, more, lazy);
    case If(c, thn) =>
      EvalMore(c, env, fuel, more, lazy);
      var rc := Eval(c, env, fuel, lazy);
      if rc.Ok? && rc.val == Some(B(true)) { BlockMore(thn, rc.env, fuel, more, lazy); }
    case IfElse(c, thn, els) =>
      EvalMore(c, env, fuel, more, lazy);
      var rc := Eval(c, env, fuel, lazy);
      if rc.Ok? && rc.val == Some(B(true)) { BlockMore(thn, rc.env, fuel, more, lazy); }
      if rc.Ok? && rc.val == Some(B(false)) { EvalMore(els, rc.env, fuel, more, lazy); }
    case BlockExpr(b) => BlockMore(b, env, fuel, more, lazy);
    case While(_, _) => WhileMore(e, env, fuel, more, lazy);
    case Return(Some(r)) => EvalMore(r, env, fuel, more, lazy);
    case _ =>
  }

  lemma {:induction false} WhileMore(e: Expr, env: Env, fuel: nat, more: nat, lazy: bool)
    requires e.While? && fuel <= more && !Eval(e, env, fuel, lazy).OutOfFuel?
    ensures Eval(e, env, more, lazy) == Eval(e, env, fuel, lazy)
    decreases fuel, e, 0
  {
    EvalMore(e.cond, env, fuel, more, lazy);
    var rc := Eval(e.cond, env, fuel, lazy);
    if rc.Ok? && rc.val == Some(B(true)) {
      BlockMore(e.body, rc.env, fuel, more, lazy);
      match EvalBlock(e.body, rc.env, fuel, lazy)
      case Ok(_, env2) => EvalMore(e, env2, fuel - 1, more - 1, lazy);
      case Continued(env2) => EvalMore(e, env2[..Min(|env|, |env2|)], fuel - 1, more - 1, lazy);
      case _ =>
    }
  }

  lemma {:induction false} BlockMore(b: Block, env: Env, fuel: nat, more: nat, lazy: bool)
    requires fuel <= more && !EvalBlock(b, env, fuel, lazy).OutOfFuel?
    ensures EvalBlock(b, env, more, lazy) == EvalBlock(b, env, fuel, lazy)
    decreases fuel, b
  {
    StmtsMore(b.stmts, env + [map[]], fuel, more, lazy);
    var r := EvalStmts(b.stmts, env + [map[]], fuel, lazy);
    if r.Ok? && b.tail.Some? { EvalMore(b.tail.value, r.env, fuel, more, lazy); }
  }

  lemma {:induction false} StmtsMore(ss: seq<Stmt>, env: Env, fuel: nat, more: nat, lazy: bool)
    requires fuel <= more && !EvalStmts(ss, env, fuel, lazy).OutOfFuel?
    ensures EvalStmts(ss, env, more, lazy) == EvalStmts(ss, env, fuel, lazy)
    decreases fuel, ss
  {
    if ss != [] {
      StmtMore(ss[0], env, fuel, more, lazy);
      var r := EvalStmt(ss[0], env, fuel, lazy);
      if r.Ok? { StmtsMore(ss[1..], r.env, fuel, more, lazy); }
    }
  }

  lemma {:induction false} StmtMore(s: Stmt, env: Env, fuel: nat, more: nat, lazy: bool)
    requires fuel <= more && !EvalStmt(s, env, fuel, lazy).OutOfFuel?
    ensures EvalStmt(s, env, more, lazy) == EvalStmt(s, env, fuel, lazy)
    decreases fuel, s
  {
    match s
    case Let(_, init) => if init.Some? { EvalMore(init.value, env, fuel, more, lazy); }
    case LetPattern(init) => if init.Some? { EvalMore(init.value, env, fuel, more, lazy); }
    case Assign(_, rhs) => EvalMore(rhs, env, fuel, more, lazy);
    case ExprStmt(e) => EvalMore(e, env, fuel, more, lazy);
  }
}
