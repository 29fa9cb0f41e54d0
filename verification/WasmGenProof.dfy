/** Meaning preservation: the emitted code computes what the body means. */
module WasmGenProof {
  import opened Powers
  import opened Wrappers
  import opened ScalarHir
  import opened WasmGen
  import opened I32
  import W = WasmCore

  function Rep(v: Val): Word {
    match v case I(n) => ToWord(n) case B(b) => OfBool(b)
  }

  function RepOpt(v: Option<Val>): seq<Word> {
    if v.Some? then [Rep(v.value)] else []
  }

  predicate Visible<T>(scopes: seq<map<string, T>>, d: int, x: string) {
    0 <= d < |scopes| && x in scopes[d]
  }

  /** Visible names own distinct slots, all handed out already. */
  ghost predicate SlotsOk(em: Emitter) {
    && (forall d, x :: Visible(em.scopes, d, x) ==> em.scopes[d][x] < em.next)
    && (forall d, x, d', x' ::
          (Visible(em.scopes, d, x) && Visible(em.scopes, d', x') && em.scopes[d][x] == em.scopes[d'][x'])
          ==> d == d' && x == x')
  }

  ghost predicate CellOk(slot: nat, v: Option<Val>, locals: seq<Word>) {
    slot < |locals| && (v.Some? ==> locals[slot] == Rep(v.value))
  }

  /** The locals hold the environment. */
  ghost predicate Holds(scopes: seq<map<string, nat>>, env: Env, locals: seq<Word>) {
    && |scopes| == |env|
    && (forall d :: 0 <= d < |env| ==> scopes[d].Keys == env[d].Keys)
    && (forall d, x :: Visible(env, d, x) ==> CellOk(scopes[d][x], env[d][x], locals))
  }

  /** The machine outcome `o` renders the result `r` of an expression entered
      above `base`; `k` outer scopes survive a jump out of the loop. */
  ghost predicate Renders(r: Res, o: W.Outcome, base: seq<Word>, size: nat,
                          scopes: seq<map<string, nat>>, k: nat, inLoop: bool)
    requires k <= |scopes|
  {
    match r
    case Ok(v, env) =>
      o.Done? && o.st.stack == base + RepOpt(v) && |o.st.locals| == size && Holds(scopes, env, o.st.locals)
    case Returned(v) =>
      o.Returned? && (v.Some? ==> |o.st.stack| > 0 && o.st.stack[|o.st.stack| - 1] == Rep(v.value))
    case Broke(env) => inLoop && Jumps(o, 1, env, size, scopes[..k])
    case Continued(env) => inLoop && Jumps(o, 0, env, size, scopes[..k])
    case Trapped => o == W.Trap
    case OutOfFuel => o == W.OutOfFuel
    case Stuck => true
  }

  ghost predicate Jumps(o: W.Outcome, depth: nat, env: Env, size: nat, outer: seq<map<string, nat>>) {
    && o.Branch? && o.depth == depth && |o.st.locals| == size
    && |env| >= |outer| && Holds(outer, env[..|outer|], o.st.locals)
  }

  ghost predicate ArityFits(r: Res, a: Arity) {
    r.Ok? ==> (a == One ==> r.val.Some?) && (a == Zero ==> r.val.None?) && a != Never
  }

  // ----- scopes and cells -----

  lemma {:induction false} FindAgrees(scopes: seq<map<string, nat>>, env: Env, x: string)
    requires |scopes| == |env|
    requires forall d :: 0 <= d < |env| ==> scopes[d].Keys == env[d].Keys
    ensures Find(scopes, x) == Find(env, x)
    decreases |env|
  {
    if |env| > 0 {
      var n := |env| - 1;
      assert scopes[n].Keys == env[n].Keys;
      assert x in scopes[n] <==> x in env[n];
      FindAgrees(scopes[..n], env[..n], x);
    }
  }

  lemma HoldsPrefix(scopes: seq<map<string, nat>>, env: Env, locals: seq<Word>, k: nat)
    requires Holds(scopes, env, locals) && k <= |scopes|
    ensures Holds(scopes[..k], env[..k], locals)
  {
    forall d, x | Visible(env[..k], d, x)
      ensures CellOk(scopes[..k][d][x], env[..k][d][x], locals)
    {
      assert env[..k][d] == env[d] && scopes[..k][d] == scopes[d];
      assert Visible(env, d, x);
    }
  }

  lemma HoldsPush(scopes: seq<map<string, nat>>, env: Env, locals: seq<Word>)
    requires Holds(scopes, env, locals)
    ensures Holds(scopes + [map[]], env + [map[]], locals)
  {
    var s2, e2 := scopes + [map[]], env + [map[]];
    forall d | 0 <= d < |e2| ensures s2[d].Keys == e2[d].Keys
    {
      if d < |env| { assert s2[d] == scopes[d] && e2[d] == env[d]; }
    }
    forall d, x | Visible(e2, d, x) ensures CellOk(s2[d][x], e2[d][x], locals)
    {
      if d < |env| { assert Visible(env, d, x); }
    }
  }

  lemma SlotsDeclare(em: Emitter, x: string)
    requires SlotsOk(em) && |em.scopes| > 0
    ensures SlotsOk(DeclareSlot(em, x))
  {
    var n := |em.scopes| - 1;
    var em1 := DeclareSlot(em, x);
    forall d, y | Visible(em1.scopes, d, y) && !(d == n && y == x)
      ensures Visible(em.scopes, d, y) && em1.scopes[d][y] == em.scopes[d][y]
    {
    }
  }

  /** Writing a fresh slot for a new declaration. */
  lemma HoldsDeclare(em: Emitter, env: Env, locals: seq<Word>, x: string, v: Option<Val>, w: Word)
    requires SlotsOk(em) && |em.scopes| > 0 && Holds(em.scopes, env, locals)
    requires em.next < |locals| && (v.Some? ==> w == Rep(v.value))
    ensures Holds(DeclareSlot(em, x).scopes, Declare(env, x, v), locals[em.next := w])
  {
    var n := |env| - 1;
    var scopes1, env1, locals1 := DeclareSlot(em, x).scopes, Declare(env, x, v), locals[em.next := w];
    assert em.scopes[n].Keys == env[n].Keys;
    forall d | 0 <= d < |env1| ensures scopes1[d].Keys == env1[d].Keys
    {
      assert em.scopes[d].Keys == env[d].Keys;
    }
    forall d, y | Visible(env1, d, y) ensures CellOk(scopes1[d][y], env1[d][y], locals1)
    {
      if d != n || y != x {
        assert em.scopes[d].Keys == env[d].Keys;
        assert Visible(env, d, y) && Visible(em.scopes, d, y);
        assert CellOk(em.scopes[d][y], env[d][y], locals);
      }
    }
  }

  /** Writing the slot of a visible name changes that name only. */
  lemma HoldsAssign(em: Emitter, env: Env, locals: seq<Word>, d: nat, x: string, v: Val)
    requires SlotsOk(em) && Holds(em.scopes, env, locals)
    requires d < |env| && x in env[d]
    ensures x in em.scopes[d] && em.scopes[d][x] < |locals|
    ensures Holds(em.scopes, env[d := env[d][x := Some(v)]], locals[em.scopes[d][x] := Rep(v)])
  {
    assert em.scopes[d].Keys == env[d].Keys;
    assert Visible(env, d, x) && Visible(em.scopes, d, x);
    var slot := em.scopes[d][x];
    assert CellOk(slot, env[d][x], locals);
    var env1, locals1 := env[d := env[d][x := Some(v)]], locals[slot := Rep(v)];
    forall c, y | Visible(env1, c, y) ensures CellOk(em.scopes[c][y], env1[c][y], locals1)
    {
      assert em.scopes[c].Keys == env[c].Keys;
      assert Visible(env, c, y) && Visible(em.scopes, c, y);
      assert CellOk(em.scopes[c][y], env[c][y], locals);
      if c == d && y == x { assert env1[c][y] == Some(v); } else { assert env1[c][y] == env[c][y]; }
    }
  }

  // ----- operators -----

  ghost predicate OpAgrees(op: BinOp, a: Val, b: Val) {
    var w := W.Apply(NumOpOf(op), Rep(a), Rep(b));
    match EvalBin(op, a, b)
    case Value(v) => w == Some(Rep(v))
    case Traps => w == None
    case IllTyped => true
  }

  /** Each operator of the table agrees with the opcode chosen for it. */
  lemma BinAgrees(op: BinOp, a: Val, b: Val)
    ensures OpAgrees(op, a, b)
  {
    if a.I? && b.I? {
      match op
      case Plus => AddAgrees(a.n, b.n);
      case Minus => SubAgrees(a.n, b.n);
      case Times => MulAgrees(a.n, b.n);
      case Divide => DivAgrees(a.n, b.n);
      case Modulo => RemAgrees(a.n, b.n);
      case BitAnd | BitOr | BitXor => BitsAgree(op, a.n, b.n);
      case ShiftL => ShlAgrees(a.n, b.n);
      case ShiftR => ShrAgrees(a.n, b.n);
      case AndAnd | OrOr =>
      case _ => CompareAgrees(op, a.n, b.n);
    } else if a.B? && b.B? {
      match op
      case AndAnd => ConjunctionAgrees(a.b, b.b);
      case OrOr => DisjunctionAgrees(a.b, b.b);
      case _ =>
    }
  }

  lemma ConjunctionAgrees(p: bool, q: bool)
    ensures OpAgrees(AndAnd, B(p), B(q))
  {
    BoolBits(AndBit, p, q);
  }

  lemma DisjunctionAgrees(p: bool, q: bool)
    ensures OpAgrees(OrOr, B(p), B(q))
  {
    BoolBits(OrBit, p, q);
  }

  lemma AddAgrees(m: Int32, n: Int32)
    ensures OpAgrees(Plus, I(m), I(n))
  {
    ModAdd(m, n);
    WrapKeepsWord(m + n);
  }

  lemma SubAgrees(m: Int32, n: Int32)
    ensures OpAgrees(Minus, I(m), I(n))
  {
    ModSub(m, n);
    WrapKeepsWord(m - n);
  }

  lemma MulAgrees(m: Int32, n: Int32)
    ensures OpAgrees(Times, I(m), I(n))
  {
    ModMul(m, n);
    WrapKeepsWord(m * n);
  }

  lemma BitsAgree(op: BinOp, m: Int32, n: Int32)
    requires op.BitAnd? || op.BitOr? || op.BitXor?
    ensures OpAgrees(op, I(m), I(n))
  {
    WordOfSigned(BitwiseWord(match op case BitAnd => AndBit case BitOr => OrBit case _ => XorBit, ToWord(m), ToWord(n)));
  }

  lemma CompareAgrees(op: BinOp, m: Int32, n: Int32)
    requires op.Equal? || op.NotEqual? || op.Less? || op.LessEq? || op.Greater? || op.GreaterEq?
    ensures OpAgrees(op, I(m), I(n))
  {
    SignedOfWord(m);
    SignedOfWord(n);
  }

  lemma DivAgrees(m: Int32, n: Int32)
    ensures OpAgrees(Divide, I(m), I(n))
  {
    SignedOfWord(m);
    SignedOfWord(n);
    if n != 0 { WrapKeepsWord(TruncDiv(m, n)); }
  }

  lemma RemAgrees(m: Int32, n: Int32)
    ensures OpAgrees(Modulo, I(m), I(n))
  {
    SignedOfWord(m);
    SignedOfWord(n);
    if n != 0 { WrapKeepsWord(TruncRem(m, n)); }
  }

  lemma ShlAgrees(m: Int32, n: Int32)
    ensures OpAgrees(ShiftL, I(m), I(n))
  {
    ShiftCount(n);
    WrapKeepsWord(m * Pow2(n % 32));
    ShiftedWord(m, Pow2(n % 32));
  }

  lemma ShrAgrees(m: Int32, n: Int32)
    ensures OpAgrees(ShiftR, I(m), I(n))
  {
    SignedOfWord(m);
    ShiftCount(n);
    WrapKeepsWord(m / Pow2(n % 32));
  }

  lemma WordOfSigned(w: Word)
    ensures ToWord(Signed(w)) == w
  {
  }

  lemma ShiftCount(n: int)
    ensures ToWord(n) % 32 == n % 32
  {
  }

  lemma ShiftedWord(n: int, p: int)
    ensures ToWord(ToWord(n) * p) == ToWord(n * p)
  {
    var q, r := n / MODULUS, n % MODULUS;
    assert n * p == r * p + MODULUS * (q * p) by {
      assert n == MODULUS * q + r;
      assert (MODULUS * q + r) * p == MODULUS * (q * p) + r * p;
    }
    AddMultiple(r * p, q * p);
  }

  lemma NegAgrees(n: Int32)
    ensures ToWord(0 - ToWord(n)) == Rep(I(Wrap(0 - n)))
  {
    WrapKeepsWord(0 - n);
  }

  // ----- the simulation -----

  /** What is needed to run `code`, emitted from `em` up to slot `top`. */
  ghost predicate Ready(em: Emitter, env: Env, locals: seq<Word>, top: nat, k: nat) {
    SlotsOk(em) && Holds(em.scopes, env, locals) && top <= |locals| && k <= |em.scopes|
  }

  /** The emitted code of `e`, run above `base`, renders evaluating `e`. */
  ghost predicate ExprSim(e: Expr, em: Emitter, env: Env, fuel: nat, base: seq<Word>,
                          locals: seq<Word>, k: nat, inLoop: bool)
    requires k <= |em.scopes|
  {
    var r := Eval(e, env, fuel, false);
    && Renders(r, W.Exec(Compile(e, em).0, W.State(base, locals), fuel), base, |locals|, em.scopes, k, inLoop)
    && ArityFits(r, ArityOf(e))
  }

  ghost predicate BlockSim(b: Block, em: Emitter, env: Env, fuel: nat, base: seq<Word>,
                           locals: seq<Word>, k: nat, inLoop: bool)
    requires k <= |em.scopes|
  {
    var r := EvalBlock(b, env, fuel, false);
    && Renders(r, W.Exec(CompileBlock(b, em).0, W.State(base, locals), fuel), base, |locals|, em.scopes, k, inLoop)
    && ArityFits(r, BlockArity(b))
  }

  ghost predicate StmtsSim(ss: seq<Stmt>, em: Emitter, env: Env, fuel: nat, base: seq<Word>,
                           locals: seq<Word>, k: nat, inLoop: bool)
    requires k < |em.scopes|
  {
    var r := EvalStmts(ss, env, fuel, false);
    var (code, em1) := CompileStmts(ss, em);
    && Renders(r, W.Exec(code, W.State(base, locals), fuel), base, |locals|, em1.scopes, k, inLoop)
    && (r.Ok? ==> r.val.None?)
  }

  ghost predicate StmtSim(s: Stmt, em: Emitter, env: Env, fuel: nat, base: seq<Word>,
                          locals: seq<Word>, k: nat, inLoop: bool)
    requires k < |em.scopes|
  {
    var r := EvalStmt(s, env, fuel, false);
    var (code, em1) := CompileStmt(s, em);
    && Renders(r, W.Exec(code, W.State(base, locals), fuel), base, |locals|, em1.scopes, k, inLoop)
    && (r.Ok? ==> r.val.None?)
  }

  /** Code after a value: continue on completion, otherwise the outcome stands. */
  lemma Then(a: seq<W.Instr>, b: seq<W.Instr>, st: W.State, fuel: nat)
    ensures W.Exec(a, st, fuel).Done? ==> W.Exec(a + b, st, fuel) == W.Exec(b, W.Exec(a, st, fuel).st, fuel)
    ensures !W.Exec(a, st, fuel).Done? ==> W.Exec(a + b, st, fuel) == W.Exec(a, st, fuel)
  {
    W.ExecConcat(a, b, st, fuel);
  }

  /** Running the emitted code renders direct evaluation, for every fuel. */
  lemma {:induction false} ExprCorrect(e: Expr, em: Emitter, env: Env, fuel: nat, base: seq<Word>,
                                       locals: seq<Word>, k: nat, inLoop: bool)
    requires Fits(e, inLoop) && Ready(em, env, locals, Compile(e, em).1.next, k)
    ensures ExprSim(e, em, env, fuel, base, locals, k, inLoop)
    decreases fuel, e, 4
  {
    var st := W.State(base, locals);
    match e
    case IntLit(n) => W.ExecOne(W.Const(n), st, fuel);
    case BoolLit(b) => W.ExecOne(W.Const(if b then 1 else 0), st, fuel);
    case Ident(x) => IdentCorrect(x, em, env, fuel, base, locals, k, inLoop);
    case Bin(_, _, _) => BinCorrect(e, em, env, fuel, base, locals, k, inLoop);
    case Un(_, _) => UnCorrect(e, em, env, fuel, base, locals, k, inLoop);
    case If(_, _) => IfCorrect(e, em, env, fuel, base, locals, k, inLoop);
    case IfElse(_, _, _) => IfElseCorrect(e, em, env, fuel, base, locals, k, inLoop);
    case BlockExpr(b) => BlockCorrect(b, em, env, fuel, base, locals, k, inLoop);
    case While(_, _) => WhileCorrect(e, em, env, fuel, base, locals, k, inLoop);
    case Return(None) => W.ExecOne(W.Return, st, fuel);
    case Return(Some(r)) =>
      ExprCorrect(r, em, env, fuel, base, locals, k, inLoop);
      Then(Compile(r, em).0, [W.Return], st, fuel);
      var o := W.Exec(Compile(r, em).0, st, fuel);
      if o.Done? { W.ExecOne(W.Return, o.st, fuel); }
    case Break => W.ExecOne(W.Br(1), st, fuel); HoldsPrefix(em.scopes, env, locals, k);
    case Continue => W.ExecOne(W.Br(0), st, fuel); HoldsPrefix(em.scopes, env, locals, k);
  }

  lemma {:induction false} IdentCorrect(x: string, em: Emitter, env: Env, fuel: nat, base: seq<Word>,
                     locals: seq<Word>, k: nat, inLoop: bool)
    requires Ready(em, env, locals, em.next, k)
    ensures ExprSim(Ident(x), em, env, fuel, base, locals, k, inLoop)
  {
    FindAgrees(em.scopes, env, x);
    match Find(env, x)
    case None =>
    case Some(d) =>
      assert Visible(env, d, x);
      assert CellOk(em.scopes[d][x], env[d][x], locals);
      W.ExecOne(W.LocalGet(em.scopes[d][x]), W.State(base, locals), fuel);
  }

  lemma {:induction false} BinCorrect(e: Expr, em: Emitter, env: Env, fuel: nat, base: seq<Word>,
                                      locals: seq<Word>, k: nat, inLoop: bool)
    requires e.Bin? && Fits(e, inLoop) && Ready(em, env, locals, Compile(e, em).1.next, k)
    ensures ExprSim(e, em, env, fuel, base, locals, k, inLoop)
    decreases fuel, e, 0
  {
    var Bin(op, l, r) := e;
    var st := W.State(base, locals);
    var (cl, em1) := Compile(l, em);
    var (cr, em2) := Compile(r, em1);
    var last := [W.Num(NumOpOf(op))];
    assert Compile(e, em).0 == cl + (cr + last);
    ExprCorrect(l, em, env, fuel, base, locals, k, inLoop);
    Then(cl, cr + last, st, fuel);
    var rl := Eval(l, env, fuel, false);
    if rl.Ok? && rl.val.Some? {
      var s1 := W.Exec(cl, st, fuel).st;
      ExprCorrect(r, em1, rl.env, fuel, s1.stack, s1.locals, k, inLoop);
      Then(cr, last, s1, fuel);
      var rr := Eval(r, rl.env, fuel, false);
      if rr.Ok? && rr.val.Some? {
        var s2 := W.Exec(cr, s1, fuel).st;
        BinAgrees(op, rl.val.value, rr.val.value);
        W.ExecOne(last[0], s2, fuel);
        assert s2.stack == base + [Rep(rl.val.value), Rep(rr.val.value)];
        assert s2.stack[..|s2.stack| - 2] == base;
      }
    }
  }

  /** An abrupt result is rendered the same way further out. */
  lemma {:induction false} Carry(r: Res, o: W.Outcome, base: seq<Word>, base': seq<Word>, size: nat,
              scopes: seq<map<string, nat>>, scopes': seq<map<string, nat>>, k: nat, inLoop: bool)
    requires k <= |scopes| && k <= |scopes'| && scopes[..k] == scopes'[..k]
    requires !r.Ok? && Renders(r, o, base, size, scopes, k, inLoop)
    ensures Renders(r, o, base', size, scopes', k, inLoop)
    ensures !r.Stuck? ==> !o.Done?
  {
  }

  lemma {:induction false} UnCorrect(e: Expr, em: Emitter, env: Env, fuel: nat, base: seq<Word>,
                                     locals: seq<Word>, k: nat, inLoop: bool)
    requires e.Un? && Fits(e, inLoop) && Ready(em, env, locals, Compile(e, em).1.next, k)
    ensures ExprSim(e, em, env, fuel, base, locals, k, inLoop)
    decreases fuel, e, 1
  {
    var Un(op, r) := e;
    var st := W.State(base, locals);
    var cr := Compile(r, em).0;
    var rr := Eval(r, env, fuel, false);
    match op
    case Negate => NegateCorrect(r, em, env, fuel, base, locals, k, inLoop);
    case Bang =>
      ExprCorrect(r, em, env, fuel, base, locals, k, inLoop);
      Then(cr, [W.Eqz], st, fuel);
      var o := W.Exec(cr, st, fuel);
      if rr.Ok? {
        W.ExecOne(W.Eqz, o.st, fuel);
        assert o.st.stack[..|o.st.stack| - 1] == base;
      } else {
        Carry(rr, o, base, base, |locals|, em.scopes, em.scopes, k, inLoop);
      }
    case _ => ExprCorrect(r, em, env, fuel, base, locals, k, inLoop);
  }

  lemma {:induction false} NegateCorrect(r: Expr, em: Emitter, env: Env, fuel: nat, base: seq<Word>,
                                         locals: seq<Word>, k: nat, inLoop: bool)
    requires Fits(Un(Negate, r), inLoop) && Ready(em, env, locals, Compile(r, em).1.next, k)
    ensures ExprSim(Un(Negate, r), em, env, fuel, base, locals, k, inLoop)
    decreases fuel, Un(Negate, r), 0
  {
    ExprCorrect(r, em, env, fuel, base + [0], locals, k, inLoop);
    NegateRuns(Compile(r, em).0, Eval(r, env, fuel, false), base, locals, fuel, em.scopes, k, inLoop);
  }

  /** `0 - x` around any code that renders `x`. */
  lemma {:induction false} NegateRuns(cr: seq<W.Instr>, rr: Res, base: seq<Word>, locals: seq<Word>, fuel: nat,
                   scopes: seq<map<string, nat>>, k: nat, inLoop: bool)
    requires k <= |scopes|
    requires Renders(rr, W.Exec(cr, W.State(base + [0], locals), fuel), base + [0], |locals|, scopes, k, inLoop)
    ensures Renders(ApplyUn(Negate, rr), W.Exec([W.Const(0)] + cr + [W.Num(W.Sub)], W.State(base, locals), fuel),
                    base, |locals|, scopes, k, inLoop)
  {
    var st, st0 := W.State(base, locals), W.State(base + [0], locals);
    var o := W.Exec(cr, st0, fuel);
    assert [W.Const(0)] + cr + [W.Num(W.Sub)] == [W.Const(0)] + (cr + [W.Num(W.Sub)]);
    W.ExecOne(W.Const(0), st, fuel);
    assert ToWord(0) == 0;
    Then([W.Const(0)], cr + [W.Num(W.Sub)], st, fuel);
    Then(cr, [W.Num(W.Sub)], st0, fuel);
    if rr.Ok? {
      if rr.val.Some? && rr.val.value.I? {
        W.ExecOne(W.Num(W.Sub), o.st, fuel);
        NegAgrees(rr.val.value.n);
        assert o.st.stack == base + [0, Rep(rr.val.value)];
        assert o.st.stack[..|o.st.stack| - 2] == base;
      }
    } else {
      Carry(rr, o, st0.stack, base, |locals|, scopes, scopes, k, inLoop);
    }
  }

  lemma {:induction false} IfCorrect(e: Expr, em: Emitter, env: Env, fuel: nat, base: seq<Word>,
                                     locals: seq<Word>, k: nat, inLoop: bool)
    requires e.If? && Fits(e, inLoop) && Ready(em, env, locals, Compile(e, em).1.next, k)
    ensures ExprSim(e, em, env, fuel, base, locals, k, inLoop)
    decreases fuel, e, 0
  {
    var If(c, thn) := e;
    var st := W.State(base, locals);
    var (cc, em1) := Compile(c, em);
    var ct := CompileBlock(thn, em1).0;
    ExprCorrect(c, em, env, fuel, base, locals, k, inLoop);
    Then(cc, [W.If(ct)], st, fuel);
    var rc := Eval(c, env, fuel, false);
    var oc := W.Exec(cc, st, fuel);
    if !rc.Ok? {
      Carry(rc, oc, base, base, |locals|, em.scopes, em.scopes, k, inLoop);
    } else if rc.val.value.B? {
      var s1 := oc.st;
      W.ExecOne(W.If(ct), s1, fuel);
      assert s1.stack[..|s1.stack| - 1] == base;
      if rc.val.value.b {
        BlockCorrect(thn, em1, rc.env, fuel, [], s1.locals, k, false);
        LeaveEmpty(EvalBlock(thn, rc.env, fuel, false), W.Exec(ct, W.State([], s1.locals), fuel),
                   base, |locals|, em.scopes, k, inLoop);
      }
    }
  }

  /** A block left with its one value, or by a jump that is not its own. */
  lemma {:induction false} LeaveValue(r: Res, o: W.Outcome, base: seq<Word>, size: nat,
                   scopes: seq<map<string, nat>>, k: nat, inLoop: bool)
    requires k <= |scopes| && Renders(r, o, [], size, scopes, k, false) && (r.Ok? ==> r.val.Some?)
    ensures Renders(r, W.Leave(o, base, 1), base, size, scopes, k, inLoop)
  {
  }

  lemma {:induction false} LeaveEmpty(r: Res, o: W.Outcome, base: seq<Word>, size: nat,
                   scopes: seq<map<string, nat>>, k: nat, inLoop: bool)
    requires k <= |scopes| && Renders(r, o, [], size, scopes, k, false) && (r.Ok? ==> r.val.None?)
    ensures Renders(r, W.Leave(o, base, 0), base, size, scopes, k, inLoop)
  {
  }

  lemma {:induction false} IfElseCorrect(e: Expr, em: Emitter, env: Env, fuel: nat, base: seq<Word>,
                                         locals: seq<Word>, k: nat, inLoop: bool)
    requires e.IfElse? && Fits(e, inLoop) && Ready(em, env, locals, Compile(e, em).1.next, k)
    ensures ExprSim(e, em, env, fuel, base, locals, k, inLoop)
    decreases fuel, e, 0
  {
    var IfElse(c, thn, els) := e;
    var st := W.State(base, locals);
    var (cc, em1) := Compile(c, em);
    var (ct, em2) := CompileBlock(thn, em1);
    var ce := Compile(els, em2).0;
    ExprCorrect(c, em, env, fuel, base, locals, k, inLoop);
    Then(cc, [W.IfElse(ct, ce)], st, fuel);
    var rc := Eval(c, env, fuel, false);
    var oc := W.Exec(cc, st, fuel);
    if !rc.Ok? {
      Carry(rc, oc, base, base, |locals|, em.scopes, em.scopes, k, inLoop);
    } else if rc.val.value.B? {
      var s1 := oc.st;
      W.ExecOne(W.IfElse(ct, ce), s1, fuel);
      assert s1.stack[..|s1.stack| - 1] == base;
      if rc.val.value.b {
        BlockCorrect(thn, em1, rc.env, fuel, [], s1.locals, k, false);
        LeaveValue(EvalBlock(thn, rc.env, fuel, false), W.Exec(ct, W.State([], s1.locals), fuel),
                   base, |locals|, em.scopes, k, inLoop);
      } else {
        ExprCorrect(els, em2, rc.env, fuel, [], s1.locals, k, false);
        LeaveValue(Eval(els, rc.env, fuel, false), W.Exec(ce, W.State([], s1.locals), fuel),
                   base, |locals|, em.scopes, k, inLoop);
      }
    }
  }

  lemma {:induction false} WhileCorrect(e: Expr, em: Emitter, env: Env, fuel: nat, base: seq<Word>,
                                        locals: seq<Word>, k: nat, inLoop: bool)
    requires e.While? && Fits(e, inLoop) && Ready(em, env, locals, Compile(e, em).1.next, k)
    ensures ExprSim(e, em, env, fuel, base, locals, k, inLoop)
    decreases fuel, e, 3
  {
    var (cc, em1) := Compile(e.cond, em);
    var cb := CompileBlock(e.body, em1).0;
    WhileUnrolls(LoopBody(cc, cb), base, locals, fuel);
    WhileEval(e, env, fuel);
    if fuel > 0 {
      var inner := W.State([], locals);
      ExprCorrect(e.cond, em, env, fuel, [], locals, k, false);
      Then(cc, [W.Eqz, W.BrIf(1)] + (cb + [W.Br(0)]), inner, fuel);
      LoopStep(LoopBody(cc, cb), base, locals, fuel);
      TestCorrect(e, em, Eval(e.cond, env, fuel, false), W.Exec(cc, inner, fuel), fuel, base, |locals|, k, inLoop);
    }
  }

  lemma WhileEval(e: Expr, env: Env, fuel: nat)
    requires e.While?
    ensures Eval(e, env, fuel, false)
         == if fuel == 0 then OutOfFuel else AfterTest(e, Eval(e.cond, env, fuel, false), |env|, fuel)
  {
  }

  /** What a loop does with the result of its condition. */
  function AfterTest(e: Expr, rc: Res, depth: nat, fuel: nat): Res
    requires e.While? && fuel > 0
  {
    match rc
    case Ok(Some(B(true)), env1) => AfterBody(e, EvalBlock(e.body, env1, fuel, false), depth, fuel)
    case Ok(Some(B(false)), env1) => Ok(None, env1)
    case Ok(_, _) => Stuck
    case o => o
  }

  lemma LoopStep(lb: seq<W.Instr>, base: seq<Word>, locals: seq<Word>, fuel: nat)
    requires fuel > 0
    ensures W.Leave(W.Step(W.Loop(lb), W.State([], locals), fuel), base, 0)
         == AfterPass(lb, W.Exec(lb, W.State([], locals), fuel), base, fuel)
  {
  }

  /** From the result of the condition to the result of the loop. */
  lemma {:induction false} TestCorrect(e: Expr, em: Emitter, rc: Res, oc: W.Outcome, fuel: nat, base: seq<Word>,
                                       size: nat, k: nat, inLoop: bool)
    requires e.While? && fuel > 0 && Fits(e, inLoop) && SlotsOk(em) && k <= |em.scopes|
    requires Compile(e, em).1.next <= size && Renders(rc, oc, [], size, em.scopes, k, false)
    ensures
      var (cc, em1) := Compile(e.cond, em);
      var cb := CompileBlock(e.body, em1).0;
      var rest := [W.Eqz, W.BrIf(1)] + (cb + [W.Br(0)]);
      Renders(AfterTest(e, rc, |em.scopes|, fuel),
              AfterPass(LoopBody(cc, cb), if oc.Done? then W.Exec(rest, oc.st, fuel) else oc, base, fuel),
              base, size, em.scopes, k, inLoop)
    ensures AfterTest(e, rc, |em.scopes|, fuel).Ok? ==> AfterTest(e, rc, |em.scopes|, fuel).val.None?
    decreases fuel, e, 2
  {
    var (cc, em1) := Compile(e.cond, em);
    var cb := CompileBlock(e.body, em1).0;
    if !rc.Ok? {
      Carry(rc, oc, [], base, size, em.scopes, em.scopes, k, false);
    } else if rc.val.Some? && rc.val.value.B? {
      LoopTest(cb, oc.st, fuel);
      if rc.val.value.b { IterationCorrect(e, em, rc.env, fuel, base, oc.st.locals, k, inLoop); }
    }
  }

  /** One iteration whose condition held, and the rest of the loop. */
  lemma {:induction false} IterationCorrect(e: Expr, em: Emitter, env: Env, fuel: nat, base: seq<Word>,
                                            locals: seq<Word>, k: nat, inLoop: bool)
    requires e.While? && fuel > 0 && Fits(e, inLoop) && Ready(em, env, locals, Compile(e, em).1.next, k)
    ensures
      var (cc, em1) := Compile(e.cond, em);
      var cb := CompileBlock(e.body, em1).0;
      Renders(AfterBody(e, EvalBlock(e.body, env, fuel, false), |env|, fuel),
              AfterPass(LoopBody(cc, cb), W.Exec(cb + [W.Br(0)], W.State([], locals), fuel), base, fuel),
              base, |locals|, em.scopes, k, inLoop)
    ensures
      var r := AfterBody(e, EvalBlock(e.body, env, fuel, false), |env|, fuel);
      r.Ok? ==> r.val.None?
    decreases fuel, e, 1
  {
    var (cc, em1) := Compile(e.cond, em);
    var cb := CompileBlock(e.body, em1).0;
    var s2 := W.State([], locals);
    BlockCorrect(e.body, em1, env, fuel, [], locals, |em.scopes|, true);
    Then(cb, [W.Br(0)], s2, fuel);
    var ob := W.Exec(cb, s2, fuel);
    if ob.Done? { W.ExecOne(W.Br(0), ob.st, fuel); }
    PassCorrect(e, em, EvalBlock(e.body, env, fuel, false), ob, fuel, base, |locals|, k, inLoop);
  }

  /** From the result of the body to the result of the loop. */
  lemma {:induction false} PassCorrect(e: Expr, em: Emitter, r: Res, o: W.Outcome, fuel: nat, base: seq<Word>,
                                       size: nat, k: nat, inLoop: bool)
    requires e.While? && fuel > 0 && Fits(e, inLoop) && SlotsOk(em) && k <= |em.scopes|
    requires Compile(e, em).1.next <= size && Renders(r, o, [], size, em.scopes, |em.scopes|, true)
    ensures
      var (cc, em1) := Compile(e.cond, em);
      var lb := LoopBody(cc, CompileBlock(e.body, em1).0);
      Renders(AfterBody(e, r, |em.scopes|, fuel),
              AfterPass(lb, if o.Done? then W.Branch(0, o.st) else o, base, fuel),
              base, size, em.scopes, k, inLoop)
    ensures AfterBody(e, r, |em.scopes|, fuel).Ok? ==> AfterBody(e, r, |em.scopes|, fuel).val.None?
    decreases fuel, e, 0
  {
    var (cc, em1) := Compile(e.cond, em);
    var lb := LoopBody(cc, CompileBlock(e.body, em1).0);
    assert em.scopes[..|em.scopes|] == em.scopes;
    match r
    case Ok(_, env2) =>
      WhileCorrect(e, em, env2, fuel - 1, base, o.st.locals, k, inLoop);
      WhileUnrolls(lb, base, o.st.locals, fuel - 1);
    case Continued(env2) =>
      WhileCorrect(e, em, env2[..|em.scopes|], fuel - 1, base, o.st.locals, k, inLoop);
      WhileUnrolls(lb, base, o.st.locals, fuel - 1);
    case Broke(env2) =>
      StoreRenders(em.scopes, env2[..|em.scopes|], o.st.locals, base, k, inLoop);
    case _ =>
  }

  /** What a loop does with the result of a pass, in the source and on the machine. */
  function AfterBody(e: Expr, r: Res, depth: nat, fuel: nat): Res
    requires fuel > 0
  {
    match r
    case Ok(_, env2) => Eval(e, env2, fuel - 1, false)
    case Continued(env2) => Eval(e, env2[..Min(depth, |env2|)], fuel - 1, false)
    case Broke(env2) => Ok(None, env2[..Min(depth, |env2|)])
    case o => o
  }

  function AfterPass(lb: seq<W.Instr>, o: W.Outcome, base: seq<Word>, fuel: nat): W.Outcome
    requires fuel > 0
  {
    if o.Branch? && o.depth == 0 then
      W.Leave(W.Step(W.Loop(lb), W.State([], o.st.locals), fuel - 1), base, 0)
    else
      W.Leave(W.Leave(o, [], 0), base, 0)
  }

  /** The two wrappers around a loop body, seen from outside. */
  lemma WhileUnrolls(lb: seq<W.Instr>, base: seq<Word>, locals: seq<Word>, fuel: nat)
    ensures W.Exec([W.Block([W.Loop(lb)])], W.State(base, locals), fuel)
         == W.Leave(W.Step(W.Loop(lb), W.State([], locals), fuel), base, 0)
  {
    W.ExecOne(W.Block([W.Loop(lb)]), W.State(base, locals), fuel);
    W.ExecOne(W.Loop(lb), W.State([], locals), fuel);
  }

  /** `i32.eqz; br_if 1` falls through exactly when the condition holds. */
  lemma LoopTest(cb: seq<W.Instr>, st: W.State, fuel: nat)
    requires |st.stack| == 1
    ensures W.Exec([W.Eqz, W.BrIf(1)] + (cb + [W.Br(0)]), st, fuel)
         == if st.stack[0] == 0 then W.Branch(1, W.State([], st.locals))
            else W.Exec(cb + [W.Br(0)], W.State([], st.locals), fuel)
  {
    var t := W.State([OfBool(st.stack[0] == 0)], st.locals);
    assert st.stack[..0] + [OfBool(st.stack[0] == 0)] == t.stack;
    assert W.Step(W.Eqz, st, fuel) == W.Done(t);
    W.ExecOne(W.Eqz, st, fuel);
    W.ExecOne(W.BrIf(1), t, fuel);
    Then([W.Eqz], [W.BrIf(1)], st, fuel);
    assert [W.Eqz] + [W.BrIf(1)] == [W.Eqz, W.BrIf(1)];
    Then([W.Eqz, W.BrIf(1)], cb + [W.Br(0)], st, fuel);
    assert t.stack[..0] == [];
  }

  lemma {:induction false} BlockCorrect(b: Block, em: Emitter, env: Env, fuel: nat, base: seq<Word>,
                                        locals: seq<Word>, k: nat, inLoop: bool)
    requires FitsBlock(b, inLoop) && Ready(em, env, locals, CompileBlock(b, em).1.next, k)
    ensures BlockSim(b, em, env, fuel, base, locals, k, inLoop)
    decreases fuel, b, 2
  {
    var em0, env0 := OpenScope(em, env, locals);
    var (cs, em1) := CompileStmts(b.stmts, em0);
    SlotsStmts(b.stmts, em0);
    StmtsCorrect(b.stmts, em0, env0, fuel, base, locals, k, inLoop);
    var ct := if b.tail.None? then [] else Compile(b.tail.value, em1).0;
    Then(cs, ct, W.State(base, locals), fuel);
    TailCorrect(b, em1, em.scopes, EvalStmts(b.stmts, env0, fuel, false), W.Exec(cs, W.State(base, locals), fuel),
                fuel, base, |locals|, k, inLoop);
  }

  lemma {:induction false} OpenScope(em: Emitter, env: Env, locals: seq<Word>) returns (em0: Emitter, env0: Env)
    requires SlotsOk(em) && Holds(em.scopes, env, locals)
    ensures em0 == Emitter(em.next, em.scopes + [map[]]) && env0 == env + [map[]]
    ensures SlotsOk(em0) && Holds(em0.scopes, env0, locals) && em0.scopes[..|em.scopes|] == em.scopes
  {
    em0, env0 := Emitter(em.next, em.scopes + [map[]]), env + [map[]];
    HoldsPush(em.scopes, env, locals);
    assert forall d, x :: Visible(em0.scopes, d, x) ==> Visible(em.scopes, d, x);
  }

  /** What a block does with the result of its statements. */
  function AfterStmts(b: Block, rs: Res, fuel: nat): Res {
    match rs
    case Ok(_, env1) =>
      if b.tail.None? then CloseScope(Ok(None, env1)) else CloseScope(Eval(b.tail.value, env1, fuel, false))
    case o => o
  }

  lemma {:induction false} TailCorrect(b: Block, em: Emitter, outer: seq<map<string, nat>>, rs: Res, os: W.Outcome,
                                       fuel: nat, base: seq<Word>, size: nat, k: nat, inLoop: bool)
    requires b.tail.Some? ==> Fits(b.tail.value, inLoop) && Compile(b.tail.value, em).1.next <= size
    requires SlotsOk(em) && |em.scopes| == |outer| + 1 && em.scopes[..|outer|] == outer && k <= |outer|
    requires Renders(rs, os, base, size, em.scopes, k, inLoop) && (rs.Ok? ==> rs.val.None?)
    ensures
      var ct := if b.tail.None? then [] else Compile(b.tail.value, em).0;
      Renders(AfterStmts(b, rs, fuel), if os.Done? then W.Exec(ct, os.st, fuel) else os, base, size, outer, k, inLoop)
    ensures ArityFits(AfterStmts(b, rs, fuel), BlockArity(b))
    decreases fuel, b, 1
  {
    if !rs.Ok? {
      assert em.scopes[..k] == outer[..k] by { assert em.scopes[..k] == em.scopes[..|outer|][..k]; }
      Carry(rs, os, base, base, size, em.scopes, outer, k, inLoop);
    } else if b.tail.None? {
      CloseCorrect(rs, os, base, size, em.scopes, outer, k, inLoop);
    } else {
      assert os.st == W.State(base, os.st.locals);
      ExprCorrect(b.tail.value, em, rs.env, fuel, base, os.st.locals, k, inLoop);
      CloseCorrect(Eval(b.tail.value, rs.env, fuel, false), W.Exec(Compile(b.tail.value, em).0, os.st, fuel),
                   base, size, em.scopes, outer, k, inLoop);
    }
  }

  /** Closing a scope forgets its names; their slots stay behind. */
  lemma {:induction false} CloseCorrect(r: Res, o: W.Outcome, base: seq<Word>, size: nat, inner: seq<map<string, nat>>,
                     outer: seq<map<string, nat>>, k: nat, inLoop: bool)
    requires |inner| == |outer| + 1 && inner[..|outer|] == outer && k <= |outer|
    requires Renders(r, o, base, size, inner, k, inLoop)
    ensures Renders(CloseScope(r), o, base, size, outer, k, inLoop)
  {
    if r.Ok? {
      HoldsPrefix(inner, r.env, o.st.locals, |outer|);
    } else {
      assert inner[..k] == outer[..k] by { assert inner[..k] == inner[..|outer|][..k]; }
      Carry(r, o, base, base, size, inner, outer, k, inLoop);
    }
  }

  lemma {:induction false} SlotsStmts(ss: seq<Stmt>, em: Emitter)
    requires SlotsOk(em) && |em.scopes| > 0
    ensures SlotsOk(CompileStmts(ss, em).1)
    decreases |ss|
  {
    if ss != [] {
      SlotsStmt(ss[0], em);
      SlotsStmts(ss[1..], CompileStmt(ss[0], em).1);
    }
  }

  lemma SlotsStmt(s: Stmt, em: Emitter)
    requires SlotsOk(em) && |em.scopes| > 0
    ensures SlotsOk(CompileStmt(s, em).1)
  {
    if s.Let? {
      var em1 := if s.init.None? then em else Compile(s.init.value, em).1;
      SlotsDeclare(em1, s.x);
    }
  }

  lemma {:induction false} StmtsCorrect(ss: seq<Stmt>, em: Emitter, env: Env, fuel: nat, base: seq<Word>,
                                        locals: seq<Word>, k: nat, inLoop: bool)
    requires FitsStmts(ss, inLoop) && k < |em.scopes|
    requires Ready(em, env, locals, CompileStmts(ss, em).1.next, k)
    ensures StmtsSim(ss, em, env, fuel, base, locals, k, inLoop)
    decreases fuel, ss, 2
  {
    if ss == [] {
      assert base + [] == base;
    } else {
      var st := W.State(base, locals);
      var (c0, em1) := CompileStmt(ss[0], em);
      var (cs, em2) := CompileStmts(ss[1..], em1);
      SamePrefix(em1.scopes, em2.scopes, k);
      SlotsStmt(ss[0], em);
      StmtCorrect(ss[0], em, env, fuel, base, locals, k, inLoop);
      Then(c0, cs, st, fuel);
      var r0 := EvalStmt(ss[0], env, fuel, false);
      var o0 := W.Exec(c0, st, fuel);
      if r0.Ok? {
        assert o0.st == W.State(base, o0.st.locals);
        StmtsCorrect(ss[1..], em1, r0.env, fuel, base, o0.st.locals, k, inLoop);
      } else {
        Carry(r0, o0, base, base, |locals|, em1.scopes, em2.scopes, k, inLoop);
      }
    }
  }

  lemma SamePrefix(a: seq<map<string, nat>>, b: seq<map<string, nat>>, k: nat)
    requires |a| == |b| && k < |a| && a[..|a| - 1] == b[..|a| - 1]
    ensures a[..k] == b[..k]
  {
    assert a[..k] == a[..|a| - 1][..k];
    assert b[..k] == b[..|a| - 1][..k];
  }

  lemma {:induction false} StmtCorrect(s: Stmt, em: Emitter, env: Env, fuel: nat, base: seq<Word>,
                                       locals: seq<Word>, k: nat, inLoop: bool)
    requires FitsStmt(s, inLoop) && k < |em.scopes|
    requires Ready(em, env, locals, CompileStmt(s, em).1.next, k)
    ensures StmtSim(s, em, env, fuel, base, locals, k, inLoop)
    decreases fuel, s, 2
  {
    match s
    case Let(_, _) => LetCorrect(s, em, env, fuel, base, locals, k, inLoop);
    case LetPattern(_) => LetPatternCorrect(s, em, env, fuel, base, locals, k, inLoop);
    case Assign(_, _) => AssignCorrect(s, em, env, fuel, base, locals, k, inLoop);
    case ExprStmt(e) =>
      var st := W.State(base, locals);
      var ce := Compile(e, em).0;
      ExprCorrect(e, em, env, fuel, base, locals, k, inLoop);
      Then(ce, [W.Drop], st, fuel);
      var r := Eval(e, env, fuel, false);
      var o := W.Exec(ce, st, fuel);
      if !r.Ok? {
        Carry(r, o, base, base, |locals|, em.scopes, em.scopes, k, inLoop);
      } else if r.val.Some? {
        DropTop(base, Rep(r.val.value), o.st.locals, fuel);
      }
  }

  lemma {:induction false} LetCorrect(s: Stmt, em: Emitter, env: Env, fuel: nat, base: seq<Word>,
                                      locals: seq<Word>, k: nat, inLoop: bool)
    requires s.Let? && FitsStmt(s, inLoop) && k < |em.scopes|
    requires Ready(em, env, locals, CompileStmt(s, em).1.next, k)
    ensures StmtSim(s, em, env, fuel, base, locals, k, inLoop)
    decreases fuel, s, 1
  {
    var Let(x, init) := s;
    var st := W.State(base, locals);
    var (ci, em1) := if init.None? then ([W.Const(0)], em) else Compile(init.value, em);
    SamePrefix(em1.scopes, DeclareSlot(em1, x).scopes, k);
    Then(ci, [W.LocalSet(em1.next)], st, fuel);
    if init.None? {
      W.ExecOne(W.Const(0), st, fuel);
      StoreFresh(em1, env, base, 0, locals, x, None, fuel);
    } else {
      ExprCorrect(init.value, em, env, fuel, base, locals, k, inLoop);
      var r := Eval(init.value, env, fuel, false);
      var o := W.Exec(ci, st, fuel);
      if r.Ok? {
        StoreFresh(em1, r.env, base, Rep(r.val.value), o.st.locals, x, r.val, fuel);
      } else {
        Carry(r, o, base, base, |locals|, em.scopes, DeclareSlot(em1, x).scopes, k, inLoop);
      }
    }
  }

  lemma {:induction false} LetPatternCorrect(s: Stmt, em: Emitter, env: Env, fuel: nat, base: seq<Word>,
                                             locals: seq<Word>, k: nat, inLoop: bool)
    requires s.LetPattern? && FitsStmt(s, inLoop) && k < |em.scopes|
    requires Ready(em, env, locals, CompileStmt(s, em).1.next, k)
    ensures StmtSim(s, em, env, fuel, base, locals, k, inLoop)
    decreases fuel, s, 1
  {
    var st := W.State(base, locals);
    var ci := if s.init.None? then [W.Const(0)] else Compile(s.init.value, em).0;
    Then(ci, [W.Drop], st, fuel);
    if s.init.None? {
      W.ExecOne(W.Const(0), st, fuel);
      DropTop(base, 0, locals, fuel);
    } else {
      ExprCorrect(s.init.value, em, env, fuel, base, locals, k, inLoop);
      var r := Eval(s.init.value, env, fuel, false);
      var o := W.Exec(ci, st, fuel);
      if r.Ok? {
        DropTop(base, Rep(r.val.value), o.st.locals, fuel);
      } else {
        Carry(r, o, base, base, |locals|, em.scopes, em.scopes, k, inLoop);
      }
    }
  }

  lemma {:induction false} AssignCorrect(s: Stmt, em: Emitter, env: Env, fuel: nat, base: seq<Word>,
                                         locals: seq<Word>, k: nat, inLoop: bool)
    requires s.Assign? && FitsStmt(s, inLoop) && k < |em.scopes|
    requires Ready(em, env, locals, CompileStmt(s, em).1.next, k)
    ensures StmtSim(s, em, env, fuel, base, locals, k, inLoop)
    decreases fuel, s, 1
  {
    var Assign(x, rhs) := s;
    var st := W.State(base, locals);
    var cr := Compile(rhs, em).0;
    ExprCorrect(rhs, em, env, fuel, base, locals, k, inLoop);
    var d := Find(em.scopes, x);
    var last := if d.None? then W.Drop else W.LocalSet(em.scopes[d.value][x]);
    Then(cr, [last], st, fuel);
    StoreCorrect(Eval(rhs, env, fuel, false), W.Exec(cr, st, fuel), em, base, |locals|, x, k, inLoop, fuel);
  }

  /** Storing a rendered value renders the store. */
  lemma {:induction false} StoreCorrect(r: Res, o: W.Outcome, em: Emitter, base: seq<Word>, size: nat,
                     x: string, k: nat, inLoop: bool, fuel: nat)
    requires k <= |em.scopes| && SlotsOk(em)
    requires Renders(r, o, base, size, em.scopes, k, inLoop) && (r.Ok? ==> r.val.Some?)
    ensures
      var d := Find(em.scopes, x);
      var last := if d.None? then W.Drop else W.LocalSet(em.scopes[d.value][x]);
      Renders(Store(r, x), if o.Done? then W.Exec([last], o.st, fuel) else o, base, size, em.scopes, k, inLoop)
    ensures Store(r, x).Ok? ==> Store(r, x).val.None?
  {
    if r.Ok? {
      FindAgrees(em.scopes, r.env, x);
      if Find(r.env, x).Some? {
        var d := Find(r.env, x).value;
        var slot := em.scopes[d][x];
        StoreVisible(em, r.env, base, o.st.locals, d, x, r.val.value, fuel);
        StoreRenders(em.scopes, r.env[d := r.env[d][x := r.val]], o.st.locals[slot := Rep(r.val.value)], base, k, inLoop);
      }
    }
  }

  lemma StoreRenders(scopes: seq<map<string, nat>>, env: Env, locals: seq<Word>, base: seq<Word>, k: nat, inLoop: bool)
    requires k <= |scopes| && Holds(scopes, env, locals)
    ensures Renders(Ok(None, env), W.Done(W.State(base, locals)), base, |locals|, scopes, k, inLoop)
  {
    assert base + [] == base;
  }

  lemma DropTop(base: seq<Word>, w: Word, locals: seq<Word>, fuel: nat)
    ensures W.Exec([W.Drop], W.State(base + [w], locals), fuel) == W.Done(W.State(base, locals))
  {
    W.ExecOne(W.Drop, W.State(base + [w], locals), fuel);
    assert (base + [w])[..|base|] == base;
  }

  lemma {:induction false} StoreFresh(em: Emitter, env: Env, base: seq<Word>, w: Word, locals: seq<Word>,
                   x: string, v: Option<Val>, fuel: nat)
    requires SlotsOk(em) && |em.scopes| > 0 && Holds(em.scopes, env, locals)
    requires em.next < |locals| && (v.Some? ==> w == Rep(v.value))
    ensures W.Exec([W.LocalSet(em.next)], W.State(base + [w], locals), fuel)
         == W.Done(W.State(base, locals[em.next := w]))
    ensures Holds(DeclareSlot(em, x).scopes, Declare(env, x, v), locals[em.next := w])
  {
    HoldsDeclare(em, env, locals, x, v, w);
    W.ExecOne(W.LocalSet(em.next), W.State(base + [w], locals), fuel);
    assert (base + [w])[..|base|] == base;
  }

  lemma {:induction false} StoreVisible(em: Emitter, env: Env, base: seq<Word>, locals: seq<Word>,
                     d: nat, x: string, v: Val, fuel: nat)
    requires SlotsOk(em) && Holds(em.scopes, env, locals)
    requires d < |env| && x in env[d]
    ensures x in em.scopes[d] && em.scopes[d][x] < |locals|
    ensures W.Exec([W.LocalSet(em.scopes[d][x])], W.State(base + [Rep(v)], locals), fuel)
         == W.Done(W.State(base, locals[em.scopes[d][x] := Rep(v)]))
    ensures Holds(em.scopes, env[d := env[d][x := Some(v)]], locals[em.scopes[d][x] := Rep(v)])
  {
    HoldsAssign(em, env, locals, d, x, v);
    W.ExecOne(W.LocalSet(em.scopes[d][x]), W.State(base + [Rep(v)], locals), fuel);
    assert (base + [Rep(v)])[..|base|] == base;
  }
}
