/** The scalar part of the Python front end's HIR and its direct evaluation. */
module ScalarHir {
  import opened Powers
  import opened Wrappers
  import opened I32

  datatype BinOp =
    | Plus | Minus | Times | Divide | Modulo
    | Equal | NotEqual | Less | LessEq | Greater | GreaterEq
    | BitAnd | BitOr | BitXor | ShiftL | ShiftR | AndAnd | OrOr

  datatype UnOp = Negate | Bang | Borrow | Deref

  datatype Expr =
    | IntLit(n: Int32)
    | BoolLit(b: bool)
    | Ident(x: string)
    | Bin(op: BinOp, lhs: Expr, rhs: Expr)
    | Un(uop: UnOp, operand: Expr)
    | If(cond: Expr, thn: Block)
    | IfElse(cond: Expr, thn: Block, els: Expr)
    | BlockExpr(block: Block)
    | While(cond: Expr, body: Block)
    | Return(result: Option<Expr>)
    | Break
    | Continue

  datatype Block = Block(stmts: seq<Stmt>, tail: Option<Expr>)

  datatype Stmt =
    | Let(x: string, init: Option<Expr>)
    | LetPattern(init: Option<Expr>)   // a pattern that is not one identifier
    | Assign(x: string, rhs: Expr)
    | ExprStmt(e: Expr)

  datatype Val = I(n: Int32) | B(b: bool)

  /** Scopes, innermost last. A name declared without a value maps to `None`. */
  type Env = seq<map<string, Option<Val>>>

  datatype Res =
    | Ok(val: Option<Val>, env: Env)   // `None`: completed without a value
    | Returned(val: Option<Val>)
    | Broke(env: Env)
    | Continued(env: Env)
    | Trapped
    | Stuck                            // ill-typed, unbound or uninitialised
    | OutOfFuel

  /** The innermost scope that declares `x`. */
  function Find<T>(scopes: seq<map<string, T>>, x: string): (d: Option<nat>)
    ensures d.Some? ==> d.value < |scopes| && x in scopes[d.value]
  {
    if |scopes| == 0 then None
    else if x in scopes[|scopes| - 1] then Some(|scopes| - 1)
    else Find(scopes[..|scopes| - 1], x)
  }

  function Declare<T>(scopes: seq<map<string, T>>, x: string, v: T): (r: seq<map<string, T>>)
    requires |scopes| > 0
    ensures |r| == |scopes|
  {
    scopes[..|scopes| - 1] + [scopes[|scopes| - 1][x := v]]
  }

  datatype Arith = Value(v: Val) | Traps | IllTyped

  function EvalBin(op: BinOp, a: Val, b: Val): Arith
  {
    match (op, a, b)
    case (Plus, I(m), I(n)) => Value(I(Wrap(m + n)))
    case (Minus, I(m), I(n)) => Value(I(Wrap(m - n)))
    case (Times, I(m), I(n)) => Value(I(Wrap(m * n)))
    case (Divide, I(m), I(n)) =>
      if n == 0 || (m == -0x8000_0000 && n == -1) then Traps else Value(I(Wrap(TruncDiv(m, n))))
    case (Modulo, I(m), I(n)) =>
      if n == 0 then Traps else Value(I(Wrap(TruncRem(m, n))))
    case (Equal, I(m), I(n)) => Value(B(m == n))
    case (Equal, B(m), B(n)) => Value(B(m == n))
    case (NotEqual, I(m), I(n)) => Value(B(m != n))
    case (NotEqual, B(m), B(n)) => Value(B(m != n))
    case (Less, I(m), I(n)) => Value(B(m < n))
    case (LessEq, I(m), I(n)) => Value(B(m <= n))
    case (Greater, I(m), I(n)) => Value(B(m > n))
    case (GreaterEq, I(m), I(n)) => Value(B(m >= n))
    case (BitAnd, I(m), I(n)) => Value(I(Signed(BitwiseWord(AndBit, ToWord(m), ToWord(n)))))
    case (BitOr, I(m), I(n)) => Value(I(Signed(BitwiseWord(OrBit, ToWord(m), ToWord(n)))))
    case (BitXor, I(m), I(n)) => Value(I(Signed(BitwiseWord(XorBit, ToWord(m), ToWord(n)))))
    case (ShiftL, I(m), I(n)) => Value(I(Wrap(m * Pow2(n % 32))))
    case (ShiftR, I(m), I(n)) => Value(I(Wrap(m / Pow2(n % 32))))
    case (AndAnd, B(m), B(n)) => Value(B(m && n))
    case (OrOr, B(m), B(n)) => Value(B(m || n))
    case _ => IllTyped
  }

  function EvalUn(op: UnOp, v: Val): Option<Val> {
    match (op, v)
    case (Negate, I(n)) => Some(I(Wrap(0 - n)))
    case (Bang, B(b)) => Some(B(!b))
    case (Borrow, _) => Some(v)
    case (Deref, _) => Some(v)
    case _ => None
  }

  function ApplyUn(op: UnOp, r: Res): Res {
    match r
    case Ok(Some(a), env) => (match EvalUn(op, a) case Some(v) => Ok(Some(v), env) case None => Stuck)
    case Ok(None, _) => Stuck
    case o => o
  }

  /** A short-circuit operator whose left operand already decides the result. */
  predicate Decided(op: BinOp, v: Val) {
    (op == AndAnd && v == B(false)) || (op == OrOr && v == B(true))
  }

  /** Direct evaluation. `lazy` selects short-circuit `&&` and `||`; `fuel`
      bounds the iterations of any one loop entry. */
  function Eval(e: Expr, env: Env, fuel: nat, lazy: bool): Res
    decreases fuel, e
  {
    match e
    case IntLit(n) => Ok(Some(I(n)), env)
    case BoolLit(b) => Ok(Some(B(b)), env)
    case Ident(x) =>
      (match Find(env, x)
       case None => Stuck
       case Some(d) => if env[d][x].Some? then Ok(env[d][x], env) else Stuck)
    case Bin(op, l, r) =>
      (match Eval(l, env, fuel, lazy)
       case Ok(Some(a), env1) =>
         if lazy && Decided(op, a) then Ok(Some(a), env1)
         else
           (match Eval(r, env1, fuel, lazy)
            case Ok(Some(b), env2) =>
              (match EvalBin(op, a, b)
               case Value(v) => Ok(Some(v), env2)
               case Traps => Trapped
               case IllTyped => Stuck)
            case Ok(None, _) => Stuck
            case o => o)
       case Ok(None, _) => Stuck
       case o => o)
    case Un(op, r) => ApplyUn(op, Eval(r, env, fuel, lazy))
    case If(c, thn) =>
      (match Eval(c, env, fuel, lazy)
       case Ok(Some(B(true)), env1) =>
         (match EvalBlock(thn, env1, fuel, lazy) case Ok(_, env2) => Ok(None, env2) case o => o)
       case Ok(Some(B(false)), env1) => Ok(None, env1)
       case Ok(_, _) => Stuck
       case o => o)
    case IfElse(c, thn, els) =>
      (match Eval(c, env, fuel, lazy)
       case Ok(Some(B(true)), env1) => EvalBlock(thn, env1, fuel, lazy)
       case Ok(Some(B(false)), env1) => Eval(els, env1, fuel, lazy)
       case Ok(_, _) => Stuck
       case o => o)
    case BlockExpr(b) => EvalBlock(b, env, fuel, lazy)
    case While(c, body) =>
      if fuel == 0 then OutOfFuel
      else
        (match Eval(c, env, fuel, lazy)
         case Ok(Some(B(true)), env1) =>
           (match EvalBlock(body, env1, fuel, lazy)
            case Ok(_, env2) => Eval(e, env2, fuel - 1, lazy)
            case Continued(env2) => Eval(e, env2[..Min(|env|, |env2|)], fuel - 1, lazy)
            case Broke(env2) => Ok(None, env2[..Min(|env|, |env2|)])
            case o => o)
         case Ok(Some(B(false)), env1) => Ok(None, env1)
         case Ok(_, _) => Stuck
         case o => o)
    case Return(None) => Returned(None)
    case Return(Some(r)) =>
      (match Eval(r, env, fuel, lazy)
       case Ok(Some(v), _) => Returned(Some(v))
       case Ok(None, _) => Stuck
       case o => o)
    case Break => Broke(env)
    case Continue => Continued(env)
  }

  function Min(a: nat, b: nat): nat { if a < b then a else b }

  function EvalBlock(b: Block, env: Env, fuel: nat, lazy: bool): Res
    decreases fuel, b
  {
    match EvalStmts(b.stmts, env + [map[]], fuel, lazy)
    case Ok(_, env1) =>
      if b.tail.None? then CloseScope(Ok(None, env1)) else CloseScope(Eval(b.tail.value, env1, fuel, lazy))
    case o => o
  }

  function CloseScope(r: Res): Res {
    match r
    case Ok(v, env) => if |env| == 0 then Stuck else Ok(v, env[..|env| - 1])
    case o => o
  }

  function EvalStmts(ss: seq<Stmt>, env: Env, fuel: nat, lazy: bool): Res
    decreases fuel, ss
  {
    if ss == [] then Ok(None, env)
    else match EvalStmt(ss[0], env, fuel, lazy)
      case Ok(_, env1) => EvalStmts(ss[1..], env1, fuel, lazy)
      case o => o
  }

  /** Assigns the value just computed to the innermost `x`. */
  function Store(r: Res, x: string): Res {
    match r
    case Ok(Some(v), env) =>
      (match Find(env, x)
       case None => Stuck
       case Some(d) => Ok(None, env[d := env[d][x := Some(v)]]))
    case Ok(None, _) => Stuck
    case o => o
  }

  function EvalStmt(s: Stmt, env: Env, fuel: nat, lazy: bool): Res
    decreases fuel, s
  {
    match s
    case Let(x, init) =>
      if init.None? then
        if |env| == 0 then Stuck else Ok(None, Declare(env, x, None))
      else
        (match Eval(init.value, env, fuel, lazy)
         case Ok(Some(v), env1) => if |env1| == 0 then Stuck else Ok(None, Declare(env1, x, Some(v)))
         case Ok(None, _) => Stuck
         case o => o)
    case LetPattern(init) =>
      if init.None? then Ok(None, env)
      else
        (match Eval(init.value, env, fuel, lazy)
         case Ok(Some(_), env1) => Ok(None, env1)
         case Ok(None, _) => Stuck
         case o => o)
    case Assign(x, rhs) => Store(Eval(rhs, env, fuel, lazy), x)
    case ExprStmt(e) =>
      (match Eval(e, env, fuel, lazy) case Ok(_, env1) => Ok(None, env1) case o => o)
  }
}
