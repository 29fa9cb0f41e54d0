/** The part of WebAssembly Core 1.0 that the emitter targets: structured
    instructions, their execution (section 4.4) and their binary form
    (section 5.4). */
module WasmCore {
  import opened Powers
  import opened Wrappers
  import opened I32

  datatype NumOp =
    | Add | Sub | Mul | DivS | RemS | Eq | Ne | LtS | LeS | GtS | GeS
    | And | Or | Xor | Shl | ShrS

  datatype Instr =
    | Const(n: Int32)
    | LocalGet(slot: nat)
    | LocalSet(slot: nat)
    | Drop
    | Eqz
    | Num(op: NumOp)
    | If(thn: seq<Instr>)                        // block type: no result
    | IfElse(thn: seq<Instr>, els: seq<Instr>)   // block type: one i32
    | Block(body: seq<Instr>)                    // no result
    | Loop(body: seq<Instr>)                     // no result
    | BrIf(depth: nat)
    | Br(depth: nat)
    | Return

  datatype State = State(stack: seq<Word>, locals: seq<Word>)

  datatype Outcome =
    | Done(st: State)
    | Branch(depth: nat, st: State)
    | Returned(st: State)  // the operand stack at a `return`
    | Trap
    | Stuck      // what validation excludes: underflow, a wrong arity, an unknown local
    | OutOfFuel  // more loop iterations than the budget

  /** Binary numeric operators; `None` is a trap. */
  function Apply(op: NumOp, a: Word, b: Word): Option<Word> {
    match op
    case Add => Some(ToWord(a + b))
    case Sub => Some(ToWord(a - b))
    case Mul => Some(ToWord(a * b))
    case DivS =>
      if b == 0 || (a == HALF && b == MODULUS - 1) then None
      else Some(ToWord(TruncDiv(Signed(a), Signed(b))))
    case RemS =>
      if b == 0 then None else Some(ToWord(TruncRem(Signed(a), Signed(b))))
    case Eq => Some(OfBool(a == b))
    case Ne => Some(OfBool(a != b))
    case LtS => Some(OfBool(Signed(a) < Signed(b)))
    case LeS => Some(OfBool(Signed(a) <= Signed(b)))
    case GtS => Some(OfBool(Signed(a) > Signed(b)))
    case GeS => Some(OfBool(Signed(a) >= Signed(b)))
    case And => Some(BitwiseWord(AndBit, a, b))
    case Or => Some(BitwiseWord(OrBit, a, b))
    case Xor => Some(BitwiseWord(XorBit, a, b))
    case Shl => Some(ToWord(a * Pow2(b % 32)))
    case ShrS => Some(ToWord(Signed(a) / Pow2(b % 32)))
  }

  /** Leaving a block of the given arity entered above `base`. */
  function Leave(o: Outcome, base: seq<Word>, arity: nat): Outcome {
    match o
    case Done(s) => if |s.stack| == arity then Done(State(base + s.stack, s.locals)) else Stuck
    case Branch(l, s) =>
      if l > 0 then Branch(l - 1, State(base + s.stack, s.locals))
      else if |s.stack| < arity then Stuck
      else Done(State(base + s.stack[|s.stack| - arity..], s.locals))
    case _ => o
  }

  /** Runs a sequence. `fuel` bounds the iterations of any one loop entry. */
  function Exec(code: seq<Instr>, st: State, fuel: nat): Outcome
    decreases fuel, code
  {
    if code == [] then Done(st)
    else match Step(code[0], st, fuel)
      case Done(st1) => Exec(code[1..], st1, fuel)
      case o => o
  }

  function Step(i: Instr, st: State, fuel: nat): Outcome
    decreases fuel, i
  {
    var n := |st.stack|;
    match i
    case Const(k) => Done(State(st.stack + [ToWord(k)], st.locals))
    case LocalGet(s) =>
      if s < |st.locals| then Done(State(st.stack + [st.locals[s]], st.locals)) else Stuck
    case LocalSet(s) =>
      if n == 0 || s >= |st.locals| then Stuck
      else Done(State(st.stack[..n - 1], st.locals[s := st.stack[n - 1]]))
    case Drop => if n == 0 then Stuck else Done(State(st.stack[..n - 1], st.locals))
    case Eqz =>
      if n == 0 then Stuck
      else Done(State(st.stack[..n - 1] + [OfBool(st.stack[n - 1] == 0)], st.locals))
    case Num(op) =>
      if n < 2 then Stuck
      else (match Apply(op, st.stack[n - 2], st.stack[n - 1])
        case None => Trap
        case Some(w) => Done(State(st.stack[..n - 2] + [w], st.locals)))
    case If(thn) =>
      if n == 0 then Stuck
      else if st.stack[n - 1] != 0 then
        Leave(Exec(thn, State([], st.locals), fuel), st.stack[..n - 1], 0)
      else
        Done(State(st.stack[..n - 1], st.locals))
    case IfElse(thn, els) =>
      if n == 0 then Stuck
      else if st.stack[n - 1] != 0 then
        Leave(Exec(thn, State([], st.locals), fuel), st.stack[..n - 1], 1)
      else
        Leave(Exec(els, State([], st.locals), fuel), st.stack[..n - 1], 1)
    case Block(body) => Leave(Exec(body, State([], st.locals), fuel), st.stack, 0)
    case Loop(body) =>
      if fuel == 0 then OutOfFuel
      else (match Exec(body, State([], st.locals), fuel)
        case Branch(l, s) =>
          if l == 0 then Step(i, State(st.stack, s.locals), fuel - 1)
          else Leave(Branch(l, s), st.stack, 0)
        case o => Leave(o, st.stack, 0))
    case BrIf(l) =>
      if n == 0 then Stuck
      else if st.stack[n - 1] != 0 then Branch(l, State(st.stack[..n - 1], st.locals))
      else Done(State(st.stack[..n - 1], st.locals))
    case Br(l) => Branch(l, st)
    case Return => Returned(st)
  }

  /** Running a concatenation is running its parts in turn. */
  lemma {:induction false} ExecConcat(a: seq<Instr>, b: seq<Instr>, st: State, fuel: nat)
    ensures Exec(a + b, st, fuel)
         == (match Exec(a, st, fuel) case Done(s) => Exec(b, s, fuel) case o => o)
    decreases |a|
  {
    if a == [] {
      assert a + b == b;
    } else {
      assert (a + b)[0] == a[0] && (a + b)[1..] == a[1..] + b;
      match Step(a[0], st, fuel)
      case Done(s) => ExecConcat(a[1..], b, s, fuel);
      case _ =>
    }
  }

  lemma ExecOne(i: Instr, st: State, fuel: nat)
    ensures Exec([i], st, fuel) == Step(i, st, fuel)
  {
    match Step(i, st, fuel)
    case Done(s) => assert Exec([i][1..], s, fuel) == Done(s);
    case _ =>
  }
}
