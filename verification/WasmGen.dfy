/** What `FnEmitter` emits for a scalar body: structured Wasm code, a slot for
    every declaration, and the scopes that say which slot a name means. */
module WasmGen {
  import opened ScalarHir
  import W = WasmCore

  /** `next` is the number of slots handed out so far. */
  datatype Emitter = Emitter(next: nat, scopes: seq<map<string, nat>>)

  function NumOpOf(op: BinOp): W.NumOp {
    match op
    case Plus => W.Add
    case Minus => W.Sub
    case Times => W.Mul
    case Divide => W.DivS
    case Modulo => W.RemS
    case Equal => W.Eq
    case NotEqual => W.Ne
    case Less => W.LtS
    case LessEq => W.LeS
    case Greater => W.GtS
    case GreaterEq => W.GeS
    case BitAnd => W.And
    case BitOr => W.Or
    case BitXor => W.Xor
    case ShiftL => W.Shl
    case ShiftR => W.ShrS
    case AndAnd => W.And  // not short-circuit
    case OrOr => W.Or
  }

  /** `_produces_value`: does an expression statement get a `drop`? */
  predicate ProducesValue(e: Expr) {
    !(e.Return? || e.Break? || e.Continue? || e.While?)
  }

  function DeclareSlot(em: Emitter, x: string): (r: Emitter)
    requires |em.scopes| > 0
    ensures r.next == em.next + 1 && |r.scopes| == |em.scopes|
    ensures r.scopes[..|em.scopes| - 1] == em.scopes[..|em.scopes| - 1]
  {
    Emitter(em.next + 1, Declare(em.scopes, x, em.next))
  }

  /** An expression may use up slots but leaves the scopes as they were. */
  function Compile(e: Expr, em: Emitter): (r: (seq<W.Instr>, Emitter))
    ensures r.1.next >= em.next && r.1.scopes == em.scopes
    decreases e
  {
    match e
    case IntLit(n) => ([W.Const(n)], em)
    case BoolLit(b) => ([W.Const(if b then 1 else 0)], em)
    case Ident(x) =>
      (match Find(em.scopes, x)
       case None => ([W.Const(0)], em)
       case Some(d) => ([W.LocalGet(em.scopes[d][x])], em))
    case Bin(op, l, r) =>
      var (cl, em1) := Compile(l, em);
      var (cr, em2) := Compile(r, em1);
      (cl + cr + [W.Num(NumOpOf(op))], em2)
    case Un(Negate, r) =>
      var (cr, em1) := Compile(r, em);
      ([W.Const(0)] + cr + [W.Num(W.Sub)], em1)
    case Un(Bang, r) =>
      var (cr, em1) := Compile(r, em);
      (cr + [W.Eqz], em1)
    case Un(_, r) => Compile(r, em)
    case If(c, thn) =>
      var (cc, em1) := Compile(c, em);
      var (ct, em2) := CompileBlock(thn, em1);
      (cc + [W.If(ct)], em2)
    case IfElse(c, thn, els) =>
      var (cc, em1) := Compile(c, em);
      var (ct, em2) := CompileBlock(thn, em1);
      var (ce, em3) := Compile(els, em2);
      (cc + [W.IfElse(ct, ce)], em3)
    case BlockExpr(b) => CompileBlock(b, em)
    case While(c, body) =>
      var (cc, em1) := Compile(c, em);
      var (cb, em2) := CompileBlock(body, em1);
      ([W.Block([W.Loop(LoopBody(cc, cb))])], em2)
    case Return(None) => ([W.Return], em)
    case Return(Some(r)) =>
      var (cr, em1) := Compile(r, em);
      (cr + [W.Return], em1)
    case Break => ([W.Br(1)], em)
    case Continue => ([W.Br(0)], em)
  }

  function LoopBody(cond: seq<W.Instr>, body: seq<W.Instr>): seq<W.Instr> {
    cond + ([W.Eqz, W.BrIf(1)] + (body + [W.Br(0)]))
  }

  function CompileBlock(b: Block, em: Emitter): (r: (seq<W.Instr>, Emitter))
    ensures r.1.next >= em.next && r.1.scopes == em.scopes
    decreases b
  {
    var (cs, em1) := CompileStmts(b.stmts, Emitter(em.next, em.scopes + [map[]]));
    var (ct, em2) := if b.tail.None? then ([], em1) else Compile(b.tail.value, em1);
    assert em2.scopes[..|em.scopes|] == em.scopes;
    (cs + ct, Emitter(em2.next, em.scopes))
  }

  function CompileStmts(ss: seq<Stmt>, em: Emitter): (r: (seq<W.Instr>, Emitter))
    requires |em.scopes| > 0
    ensures r.1.next >= em.next && |r.1.scopes| == |em.scopes|
    ensures r.1.scopes[..|em.scopes| - 1] == em.scopes[..|em.scopes| - 1]
    decreases ss
  {
    if ss == [] then ([], em)
    else
      var (c0, em1) := CompileStmt(ss[0], em);
      var (cs, em2) := CompileStmts(ss[1..], em1);
      (c0 + cs, em2)
  }

  function CompileStmt(s: Stmt, em: Emitter): (r: (seq<W.Instr>, Emitter))
    requires |em.scopes| > 0
    ensures r.1.next >= em.next && |r.1.scopes| == |em.scopes|
    ensures r.1.scopes[..|em.scopes| - 1] == em.scopes[..|em.scopes| - 1]
    decreases s
  {
    match s
    case Let(x, init) =>
      var (ci, em1) := if init.None? then ([W.Const(0)], em) else Compile(init.value, em);
      (ci + [W.LocalSet(em1.next)], DeclareSlot(em1, x))
    case LetPattern(init) =>
      var (ci, em1) := if init.None? then ([W.Const(0)], em) else Compile(init.value, em);
      (ci + [W.Drop], em1)
    case Assign(x, rhs) =>
      var (cr, em1) := Compile(rhs, em);
      (match Find(em1.scopes, x)
       case None => (cr + [W.Drop], em1)
       case Some(d) => (cr + [W.LocalSet(em1.scopes[d][x])], em1))
    case ExprStmt(e) =>
      var (ce, em1) := Compile(e, em);
      (if ProducesValue(e) then ce + [W.Drop] else ce, em1)
  }

  /** How many values a completed evaluation leaves; `Never` does not complete. */
  datatype Arity = Zero | One | Never

  function ArityOf(e: Expr): Arity {
    match e
    case If(_, _) => Zero
    case While(_, _) => Zero
    case IfElse(_, _, _) => One
    case BlockExpr(b) => BlockArity(b)
    case Return(_) => Never
    case Break => Never
    case Continue => Never
    case _ => One
  }

  function BlockArity(b: Block): Arity {
    if b.tail.None? then Zero else ArityOf(b.tail.value)
  }

  /** The bodies the emitter handles: a value wherever one is consumed, none
      where the block type is empty, `drop` exactly after values, and loop
      exits (`inLoop`) not under an `if`, whose label the fixed depths ignore. */
  predicate Fits(e: Expr, inLoop: bool)
    decreases e
  {
    match e
    case Bin(_, l, r) => Fits(l, inLoop) && Fits(r, inLoop) && ArityOf(l) != Zero && ArityOf(r) != Zero
    case Un(_, r) => Fits(r, inLoop) && ArityOf(r) != Zero
    case If(c, thn) =>
      Fits(c, inLoop) && ArityOf(c) != Zero && FitsBlock(thn, false) && BlockArity(thn) != One
    case IfElse(c, thn, els) =>
      && Fits(c, inLoop) && ArityOf(c) != Zero
      && FitsBlock(thn, false) && BlockArity(thn) != Zero
      && Fits(els, false) && ArityOf(els) != Zero
    case BlockExpr(b) => FitsBlock(b, inLoop)
    case While(c, body) => Fits(c, false) && ArityOf(c) != Zero && FitsBlock(body, true)
    case Return(Some(r)) => Fits(r, inLoop) && ArityOf(r) != Zero
    case Break => inLoop
    case Continue => inLoop
    case _ => true
  }

  predicate FitsBlock(b: Block, inLoop: bool)
    decreases b
  {
    FitsStmts(b.stmts, inLoop) && (b.tail.Some? ==> Fits(b.tail.value, inLoop))
  }

  predicate FitsStmts(ss: seq<Stmt>, inLoop: bool)
    decreases ss
  {
    ss == [] || (FitsStmt(ss[0], inLoop) && FitsStmts(ss[1..], inLoop))
  }

  predicate FitsStmt(s: Stmt, inLoop: bool)
    decreases s
  {
    match s
    case Let(_, init) => init.Some? ==> Fits(init.value, inLoop) && ArityOf(init.value) != Zero
    case LetPattern(init) => init.Some? ==> Fits(init.value, inLoop) && ArityOf(init.value) != Zero
    case Assign(_, rhs) => Fits(rhs, inLoop) && ArityOf(rhs) != Zero
    case ExprStmt(e) => Fits(e, inLoop) && ArityOf(e) != (if ProducesValue(e) then Zero else One)
  }
}
