/** The opcodes that the emitter writes, against the numbering of section 5.4 of
    WebAssembly Core 1.0. */
module WasmOpcodes {
  import opened Wrappers
  import opened Leb128
  import opened I32
  import opened WasmCore
  import opened WasmBinary

  /** Numbered from 0x45. */
  const COMPARISONS: seq<string> := ["eqz", "eq", "ne", "lt_s", "lt_u", "gt_s", "gt_u", "le_s", "le_u", "ge_s", "ge_u"]

  /** Numbered from 0x67. */
  const ARITHMETIC: seq<string> :=
    ["clz", "ctz", "popcnt", "add", "sub", "mul", "div_s", "div_u", "rem_s", "rem_u", "and", "or", "xor", "shl", "shr_s"]

  function Mnemonic(op: NumOp): string {
    match op
    case Add => "add"
    case Sub => "sub"
    case Mul => "mul"
    case DivS => "div_s"
    case RemS => "rem_s"
    case Eq => "eq"
    case Ne => "ne"
    case LtS => "lt_s"
    case LeS => "le_s"
    case GtS => "gt_s"
    case GeS => "ge_s"
    case And => "and"
    case Or => "or"
    case Xor => "xor"
    case Shl => "shl"
    case ShrS => "shr_s"
  }

  /** What section 5.4.5 calls the `i32` instruction with this opcode. */
  function InstrName(b: Byte): Option<string> {
    if 0x45 <= b < 0x45 + |COMPARISONS| then Some(COMPARISONS[b - 0x45])
    else if 0x67 <= b < 0x67 + |ARITHMETIC| then Some(ARITHMETIC[b - 0x67])
    else None
  }

  /** Every operator is written as the one byte that the format gives its name. */
  lemma NumericCodes(op: NumOp)
    ensures exists b: Byte :: InstrBytes(Num(op)) == [b] && InstrName(b) == Some(Mnemonic(op))
    ensures forall b: Byte :: InstrName(b) == Some(Mnemonic(op)) ==> OpOf(b) == Some(op)
  {
    assert InstrName(Opcode(op)) == Some(Mnemonic(op));
    assert InstrBytes(Num(op)) == [Opcode(op)];
  }

  /** The control and variable instructions of sections 5.4.1 to 5.4.3, and constants. */
  lemma ControlCodes(n: Int32, k: nat, code: seq<Instr>, els: seq<Instr>)
    ensures InstrBytes(Block(code)) == [0x02, 0x40] + Bytes(code) + [0x0B]
    ensures InstrBytes(Loop(code)) == [0x03, 0x40] + Bytes(code) + [0x0B]
    ensures InstrBytes(If(code)) == [0x04, 0x40] + Bytes(code) + [0x0B]
    ensures InstrBytes(IfElse(code, els)) == [0x04, 0x7F] + Bytes(code) + [0x05] + Bytes(els) + [0x0B]
    ensures InstrBytes(Br(k)) == [0x0C] + Uleb(k) && InstrBytes(BrIf(k)) == [0x0D] + Uleb(k)
    ensures InstrBytes(Return) == [0x0F] && InstrBytes(Drop) == [0x1A] && InstrBytes(Eqz) == [0x45]
    ensures InstrBytes(LocalGet(k)) == [0x20] + Uleb(k) && InstrBytes(LocalSet(k)) == [0x21] + Uleb(k)
    ensures InstrBytes(Const(n)) == [0x41] + Sleb(n)
  {
  }
}
