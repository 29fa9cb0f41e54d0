/** `FnEmitter` and `WasmEmitter` as the objects they are: a byte buffer, a slot
    table and a scope stack updated by the walk. */
module FnEmitters {
  import opened Wrappers
  import opened Leb128
  import opened ScalarHir
  import opened WasmGen
  import opened WasmFunction
  import opened WasmBinary
  import opened WasmSections
  import opened I32
  import W = WasmCore

  class FnEmitter {
    var locals: seq<string>              // slot i is named locals[i]
    var scopes: seq<map<string, nat>>
    var body: seq<Byte>

    ghost function Em(): Emitter
      reads this
    {
      Emitter(|locals|, scopes)
    }

    constructor (params: seq<string>)
      ensures Em() == Params(params) && body == []
    {
      locals, scopes, body := [], [map[]], [];
      new;
      var i := 0;
      while i < |params|
        invariant 0 <= i <= |params| && body == [] && Em() == Params(params[..i])
      {
        assert params[..i + 1][..i] == params[..i];
        var _ := DeclareName(params[i]);
        i := i + 1;
      }
      assert params[..i] == params;
    }

    /** A fresh slot for each declaration; the innermost scope points to it. */
    method DeclareName(name: string) returns (idx: nat)
      requires |scopes| > 0
      modifies this
      ensures idx == old(|locals|) && Em() == DeclareSlot(old(Em()), name) && body == old(body)
    {
      idx := |locals|;
      locals := locals + [name];
      scopes := Declare(scopes, name, idx);
    }

    method Lookup(name: string) returns (idx: Option<nat>)
      ensures idx == match Find(scopes, name) case None => None case Some(d) => Some(scopes[d][name])
    {
      var i := |scopes|;
      assert scopes[..i] == scopes;
      while i > 0
        invariant 0 <= i <= |scopes|
        invariant Find(scopes, name) == Find(scopes[..i], name)
      {
        i := i - 1;
        if name in scopes[i] { return Some(scopes[i][name]); }
        assert scopes[..i + 1][..i] == scopes[..i];
      }
      return None;
    }

    /** Appends one instruction. */
    method Append(i: W.Instr)
      modifies this`body
      ensures body == old(body) + Bytes([i])
    {
      assert Bytes([i]) == InstrBytes(i) + Bytes([i][1..]);
      body := body + InstrBytes(i);
    }

    method EmitExpr(e: Expr)
      modifies this
      ensures Em() == Compile(e, old(Em())).1
      ensures body == old(body) + Bytes(Compile(e, old(Em())).0)
      decreases e
    {
      ghost var b0, em0 := body, Em();
      match e
      case IntLit(n) => Append(W.Const(n));
      case BoolLit(b) => Append(W.Const(if b then 1 else 0));
      case Ident(x) =>
        var idx := Lookup(x);
        if idx.None? { Append(W.Const(0)); } else { Append(W.LocalGet(idx.value)); }
      case Bin(_, _, _) => EmitBinary(e);
      case Un(_, _) => EmitUnary(e);
      case If(_, _) => EmitIf(e);
      case IfElse(_, _, _) => EmitIf(e);
      case BlockExpr(b) => EmitBlock(b);
      case While(_, _) => EmitWhile(e);
      case Return(v) =>
        if v.Some? {
          EmitExpr(v.value);
          BytesConcat(Compile(v.value, em0).0, [W.Return]);
        }
        Append(W.Return);
      case Break => Append(W.Br(1));
      case Continue => Append(W.Br(0));
    }

    method EmitBinary(e: Expr)
      requires e.Bin?
      modifies this
      ensures Em() == Compile(e, old(Em())).1
      ensures body == old(body) + Bytes(Compile(e, old(Em())).0)
      decreases e, 0
    {
      ghost var b0, em0 := body, Em();
      EmitExpr(e.lhs);
      ghost var (cl, em1) := Compile(e.lhs, em0);
      EmitExpr(e.rhs);
      ghost var cr := Compile(e.rhs, em1).0;
      var last := [W.Num(NumOpOf(e.op))];
      Append(last[0]);
      BytesConcat(cl, cr);
      BytesConcat(cl + cr, last);
      Reassociate(b0, Bytes(cl), Bytes(cr), Bytes(last));
    }

    method EmitUnary(e: Expr)
      requires e.Un?
      modifies this
      ensures Em() == Compile(e, old(Em())).1
      ensures body == old(body) + Bytes(Compile(e, old(Em())).0)
      decreases e, 0
    {
      ghost var b0, em0 := body, Em();
      ghost var cr := Compile(e.operand, em0).0;
      match e.uop
      case Negate =>
        var zero, minus := [W.Const(0)], [W.Num(W.Sub)];
        Append(zero[0]);
        EmitExpr(e.operand);
        Append(minus[0]);
        BytesConcat(zero, cr);
        BytesConcat(zero + cr, minus);
        Reassociate(b0, Bytes(zero), Bytes(cr), Bytes(minus));
      case Bang =>
        EmitExpr(e.operand);
        Append(W.Eqz);
        BytesConcat(cr, [W.Eqz]);
      case _ => EmitExpr(e.operand);
    }

    method EmitIf(e: Expr)
      requires e.If? || e.IfElse?
      modifies this
      ensures Em() == Compile(e, old(Em())).1
      ensures body == old(body) + Bytes(Compile(e, old(Em())).0)
      decreases e, 1
    {
      ghost var b0, em0 := body, Em();
      EmitExpr(e.cond);
      ghost var (cc, em1) := Compile(e.cond, em0);
      ghost var i := EmitArms(e);
      Single(i);
      BytesConcat(cc, [i]);
      Reassociate(b0, Bytes(cc), InstrBytes(i), []);
      assert Compile(e, em0).0 == cc + [i];
    }

    /** The `if` instruction, its condition already emitted. */
    method EmitArms(e: Expr) returns (ghost i: W.Instr)
      requires e.If? || e.IfElse?
      modifies this
      ensures
        var (ct, em2) := CompileBlock(e.thn, old(Em()));
        if e.If? then i == W.If(ct) && Em() == em2
        else i == W.IfElse(ct, Compile(e.els, em2).0) && Em() == Compile(e.els, em2).1
      ensures body == old(body) + InstrBytes(i)
      decreases e, 0
    {
      ghost var b1, em1 := body, Em();
      body := body + [OP_IF, if e.IfElse? then VT_I32 else VOID];
      EmitBlock(e.thn);
      ghost var (ct, em2) := CompileBlock(e.thn, em1);
      if e.IfElse? {
        body := body + [OP_ELSE];
        EmitExpr(e.els);
        i := W.IfElse(ct, Compile(e.els, em2).0);
        Bracket(b1, [OP_IF, VT_I32], Bytes(ct), [OP_ELSE], Bytes(i.els), [OP_END]);
      } else {
        i := W.If(ct);
        Bracket(b1, [OP_IF, VOID], Bytes(ct), [], [], [OP_END]);
      }
      body := body + [OP_END];
    }

    method EmitWhile(e: Expr)
      requires e.While?
      modifies this
      ensures Em() == Compile(e, old(Em())).1
      ensures body == old(body) + Bytes(Compile(e, old(Em())).0)
      decreases e, 0
    {
      ghost var b0, em0 := body, Em();
      body := body + [OP_BLOCK, VOID, OP_LOOP, VOID];
      EmitExpr(e.cond);
      ghost var (cc, em1) := Compile(e.cond, em0);
      body := body + ([OP_EQZ, OP_BR_IF] + Uleb(1));
      EmitBlock(e.body);
      ghost var cb := CompileBlock(e.body, em1).0;
      body := body + ([OP_BR] + Uleb(0) + [OP_END, OP_END]);
      WhileBytes(cc, cb);
      Bracket(b0, [OP_BLOCK, VOID, OP_LOOP, VOID], Bytes(cc), [OP_EQZ, OP_BR_IF] + Uleb(1), Bytes(cb),
              [OP_BR] + Uleb(0) + [OP_END, OP_END]);
    }

    method EmitBlock(b: Block)
      modifies this
      ensures Em() == CompileBlock(b, old(Em())).1
      ensures body == old(body) + Bytes(CompileBlock(b, old(Em())).0)
      decreases b
    {
      ghost var b0, em0 := body, Em();
      scopes := scopes + [map[]];
      ghost var em1 := Em();
      ghost var (cs, em2) := CompileStmts(b.stmts, em1);
      var i := 0;
      while i < |b.stmts|
        invariant 0 <= i <= |b.stmts| && |scopes| == |em0.scopes| + 1
        invariant CompileStmts(b.stmts[i..], Em()).1 == em2
        invariant body + Bytes(CompileStmts(b.stmts[i..], Em()).0) == b0 + Bytes(cs)
      {
        ghost var bi, emi := body, Em();
        assert b.stmts[i..][0] == b.stmts[i] && b.stmts[i..][1..] == b.stmts[i + 1..];
        EmitStmt(b.stmts[i]);
        ghost var c0 := CompileStmt(b.stmts[i], emi).0;
        ghost var rest := CompileStmts(b.stmts[i + 1..], Em()).0;
        BytesConcat(c0, rest);
        Reassociate(bi, Bytes(c0), Bytes(rest), []);
        i := i + 1;
      }
      assert b.stmts[i..] == [];
      assert body == b0 + Bytes(cs);
      if b.tail.Some? {
        ghost var ct := Compile(b.tail.value, em2).0;
        EmitExpr(b.tail.value);
        BytesConcat(cs, ct);
        Reassociate(b0, Bytes(cs), Bytes(ct), []);
      } else {
        assert cs + [] == cs;
      }
      assert em2.scopes[..|em0.scopes|] == em0.scopes;
      scopes := scopes[..|scopes| - 1];
    }

    method EmitStmt(s: Stmt)
      requires |scopes| > 0
      modifies this
      ensures Em() == CompileStmt(s, old(Em())).1
      ensures body == old(body) + Bytes(CompileStmt(s, old(Em())).0)
      decreases s
    {
      ghost var b0, em0 := body, Em();
      match s
      case Let(_, _) => EmitLet(s);
      case LetPattern(init) =>
        EmitInit(init);
        Append(W.Drop);
        ghost var ci := if init.None? then [W.Const(0)] else Compile(init.value, em0).0;
        BytesConcat(ci, [W.Drop]);
        Reassociate(b0, Bytes(ci), Bytes([W.Drop]), []);
      case Assign(x, rhs) =>
        EmitExpr(rhs);
        var idx := Lookup(x);
        var last := if idx.None? then W.Drop else W.LocalSet(idx.value);
        Append(last);
        BytesConcat(Compile(rhs, em0).0, [last]);
        Reassociate(b0, Bytes(Compile(rhs, em0).0), Bytes([last]), []);
      case ExprStmt(e) =>
        EmitExpr(e);
        if ProducesValue(e) {
          Append(W.Drop);
          BytesConcat(Compile(e, em0).0, [W.Drop]);
          Reassociate(b0, Bytes(Compile(e, em0).0), Bytes([W.Drop]), []);
        }
    }

    method EmitLet(s: Stmt)
      requires s.Let? && |scopes| > 0
      modifies this
      ensures Em() == CompileStmt(s, old(Em())).1
      ensures body == old(body) + Bytes(CompileStmt(s, old(Em())).0)
      decreases s, 0
    {
      ghost var em0 := Em();
      EmitInit(s.init);
      var idx := DeclareName(s.x);
      Append(W.LocalSet(idx));
      BytesConcat(if s.init.None? then [W.Const(0)] else Compile(s.init.value, em0).0, [W.LocalSet(idx)]);
    }

    /** The value of a `let`, a zero when there is none. */
    method EmitInit(init: Option<Expr>)
      modifies this
      ensures init.None? ==> Em() == old(Em()) && body == old(body) + Bytes([W.Const(0)])
      ensures init.Some? ==> Em() == Compile(init.value, old(Em())).1
      ensures init.Some? ==> body == old(body) + Bytes(Compile(init.value, old(Em())).0)
      decreases init
    {
      if init.None? { Append(W.Const(0)); } else { EmitExpr(init.value); }
    }

    /** The code-section entry of a freshly constructed emitter. */
    method Encode(fn: Fn) returns (out: seq<Byte>)
      requires Em() == Params(fn.params) && body == []
      modifies this
      ensures out == Entry(fn)
    {
      EmitBlock(fn.body);
      assert body == Bytes(CompileBlock(fn.body, Params(fn.params)).0);
      body := body + [OP_END];
      var extra := |locals| - |fn.params|;
      var decl := if extra <= 0 then Uleb(0) else Uleb(1) + Uleb(extra) + [VT_I32];
      var full := decl + body;
      out := Uleb(|full|) + full;
    }
  }

  lemma Reassociate(a: seq<Byte>, b: seq<Byte>, c: seq<Byte>, d: seq<Byte>)
    ensures a + b + c + d == a + (b + c + d)
    ensures a + b + c == a + (b + c)
  {
  }

  lemma Bracket(a: seq<Byte>, open: seq<Byte>, x: seq<Byte>, mid: seq<Byte>, y: seq<Byte>, close: seq<Byte>)
    ensures a + open + x + mid + y + close == a + (open + x + mid + y + close)
    ensures a + open + x + close == a + (open + x + close)
  {
  }

  lemma Single(i: W.Instr)
    ensures Bytes([i]) == InstrBytes(i)
  {
    assert Bytes([i]) == InstrBytes(i) + Bytes([i][1..]);
  }

  lemma WhileBytes(cc: seq<W.Instr>, cb: seq<W.Instr>)
    ensures Bytes([W.Block([W.Loop(LoopBody(cc, cb))])])
         == [OP_BLOCK, VOID, OP_LOOP, VOID] + Bytes(cc) + ([OP_EQZ, OP_BR_IF] + Uleb(1))
            + Bytes(cb) + ([OP_BR] + Uleb(0) + [OP_END, OP_END])
  {
    var lb := LoopBody(cc, cb);
    LoopBytes(cc, cb);
    Single(W.Loop(lb));
    Single(W.Block([W.Loop(lb)]));
  }

  lemma LoopBytes(cc: seq<W.Instr>, cb: seq<W.Instr>)
    ensures Bytes(LoopBody(cc, cb))
         == Bytes(cc) + (([OP_EQZ, OP_BR_IF] + Uleb(1)) + (Bytes(cb) + ([OP_BR] + Uleb(0))))
  {
    var test, back := [W.Eqz, W.BrIf(1)], [W.Br(0)];
    BytesConcat(cc, test + (cb + back));
    BytesConcat(test, cb + back);
    BytesConcat(cb, back);
    Single(W.Br(0));
    TestBytes();
  }

  lemma TestBytes()
    ensures Bytes([W.Eqz, W.BrIf(1)]) == [OP_EQZ, OP_BR_IF] + Uleb(1)
  {
    Single(W.Eqz);
    Single(W.BrIf(1));
    assert [W.Eqz, W.BrIf(1)] == [W.Eqz] + [W.BrIf(1)];
    BytesConcat([W.Eqz], [W.BrIf(1)]);
  }

  // ----- function entries -----

  function EntryBody(fn: Fn): seq<Byte> {
    var (code, em) := CompileBlock(fn.body, Params(fn.params));
    EntryBytes(em.next - |fn.params|, code)
  }

  /** At most one group of extra locals, the code, and `end`. */
  function EntryBytes(extra: nat, code: seq<W.Instr>): seq<Byte> {
    (if extra == 0 then Uleb(0) else Uleb(1) + Uleb(extra) + [VT_I32]) + (Bytes(code) + [OP_END])
  }

  function Entry(fn: Fn): seq<Byte> {
    Uleb(|EntryBody(fn)|) + EntryBody(fn)
  }

  /** Reads a code entry: the extra locals it declares and its code. */
  function ReadEntry(bs: seq<Byte>): Option<(nat, seq<W.Instr>)> {
    match ReadU(bs)
    case None => None
    case Some((size, rest)) =>
      if size != |rest| then None else AfterSize(rest)
  }

  function ReadCode(extra: nat, bs: seq<Byte>): Option<(nat, seq<W.Instr>)> {
    match Decode(bs)
    case Bad => None
    case Parsed(code, stop, rest) => if stop == OP_END && rest == [] then Some((extra, code)) else None
  }

  ghost predicate SlotsBelow(em: Emitter) {
    forall d, x :: 0 <= d < |em.scopes| && x in em.scopes[d] ==> em.scopes[d][x] < em.next
  }

  lemma {:induction false} ExprEncodable(e: Expr, em: Emitter)
    requires SlotsBelow(em) && Compile(e, em).1.next <= MODULUS
    ensures Encodable(Compile(e, em).0)
    decreases e, 1
  {
    match e
    case Bin(_, l, r) =>
      ExprEncodable(l, em);
      ExprEncodable(r, Compile(l, em).1);
    case Un(_, r) => ExprEncodable(r, em);
    case If(_, _) => BranchEncodable(e, em);
    case IfElse(_, _, _) => BranchEncodable(e, em);
    case BlockExpr(b) => BlockEncodable(b, em);
    case While(c, body) =>
      var (cc, em1) := Compile(c, em);
      var cb := CompileBlock(body, em1).0;
      ExprEncodable(c, em);
      BlockEncodable(body, em1);
      LoopEncodable(cc, cb);
    case Return(Some(r)) =>
      ExprEncodable(r, em);
    case _ =>
  }

  lemma {:induction false} BranchEncodable(e: Expr, em: Emitter)
    requires (e.If? || e.IfElse?) && SlotsBelow(em) && Compile(e, em).1.next <= MODULUS
    ensures Encodable(Compile(e, em).0)
    decreases e, 0
  {
    var em1 := Compile(e.cond, em).1;
    ExprEncodable(e.cond, em);
    BlockEncodable(e.thn, em1);
    if e.IfElse? { ExprEncodable(e.els, CompileBlock(e.thn, em1).1); }
  }

  lemma LoopEncodable(cc: seq<W.Instr>, cb: seq<W.Instr>)
    requires Encodable(cc) && Encodable(cb)
    ensures Encodable([W.Block([W.Loop(LoopBody(cc, cb))])])
  {
    assert Encodable(LoopBody(cc, cb));
    assert EncodableOne(W.Loop(LoopBody(cc, cb)));
    assert Encodable([W.Loop(LoopBody(cc, cb))]);
  }

  lemma {:induction false} BlockEncodable(b: Block, em: Emitter)
    requires SlotsBelow(em) && CompileBlock(b, em).1.next <= MODULUS
    ensures Encodable(CompileBlock(b, em).0)
    decreases b
  {
    var em0 := Emitter(em.next, em.scopes + [map[]]);
    var (cs, em1) := CompileStmts(b.stmts, em0);
    StmtsEncodable(b.stmts, em0);
    var ct := if b.tail.None? then [] else Compile(b.tail.value, em1).0;
    if b.tail.Some? { ExprEncodable(b.tail.value, em1); }
  }

  lemma {:induction false} StmtsEncodable(ss: seq<Stmt>, em: Emitter)
    requires |em.scopes| > 0 && SlotsBelow(em) && CompileStmts(ss, em).1.next <= MODULUS
    ensures Encodable(CompileStmts(ss, em).0) && SlotsBelow(CompileStmts(ss, em).1)
    decreases ss
  {
    if ss != [] {
      var (c0, em1) := CompileStmt(ss[0], em);
      StmtEncodable(ss[0], em);
      StmtsEncodable(ss[1..], em1);
    }
  }

  lemma {:induction false} StmtEncodable(s: Stmt, em: Emitter)
    requires |em.scopes| > 0 && SlotsBelow(em) && CompileStmt(s, em).1.next <= MODULUS
    ensures Encodable(CompileStmt(s, em).0) && SlotsBelow(CompileStmt(s, em).1)
    decreases s
  {
    match s
    case Let(x, init) =>
      var (ci, em1) := if init.None? then ([W.Const(0)], em) else Compile(init.value, em);
      if init.Some? { ExprEncodable(init.value, em); }
    case LetPattern(init) =>
      var ci := if init.None? then [W.Const(0)] else Compile(init.value, em).0;
      if init.Some? { ExprEncodable(init.value, em); }
    case Assign(x, rhs) =>
      ExprEncodable(rhs, em);
      var d := Find(em.scopes, x);
    case ExprStmt(e) =>
      ExprEncodable(e, em);
  }

  lemma {:induction false} ParamsBelow(names: seq<string>)
    ensures SlotsBelow(Params(names))
    decreases |names|
  {
    if names != [] { ParamsBelow(names[..|names| - 1]); }
  }

  /** The bytes of an entry decode to exactly the code and the locals that
      `FunctionCorrect` speaks about, within the format's own 32-bit limits. */
  lemma EntryRoundTrip(fn: Fn)
    requires |EntryBody(fn)| < MODULUS
    requires CompileBlock(fn.body, Params(fn.params)).1.next < MODULUS
    ensures
      var (code, em) := CompileBlock(fn.body, Params(fn.params));
      ReadEntry(Entry(fn)) == Some((em.next - |fn.params|, code))
  {
    var (code, em) := CompileBlock(fn.body, Params(fn.params));
    ParamsBelow(fn.params);
    BlockEncodable(fn.body, Params(fn.params));
    SizedRoundTrip(EntryBody(fn), em.next - |fn.params|, code);
  }

  lemma SizedRoundTrip(body: seq<Byte>, extra: nat, code: seq<W.Instr>)
    requires body == EntryBytes(extra, code) && |body| < MODULUS && extra < MODULUS && Encodable(code)
    ensures ReadEntry(Uleb(|body|) + body) == Some((extra, code))
  {
    ReadUnsignedBack(|body|, body);
    LocalsAndCode(extra, code);
  }

  /** An entry was read, and running it on the arguments, with its extra locals
      zeroed, computes what the function means. */
  ghost predicate RunsAs(read: Option<(nat, seq<W.Instr>)>, fn: Fn, args: seq<Val>, fuel: nat)
    requires |args| == |fn.params|
  {
    read.Some?
    && CallAgrees(Meaning(fn, args, fuel), W.Exec(read.value.1, W.State([], Reps(args) + Zeros(read.value.0)), fuel))
  }

  /** From bytes to meaning: whatever reads an emitted entry runs the function. */
  lemma EmittedBytesCorrect(fn: Fn, args: seq<Val>, fuel: nat)
    requires |args| == |fn.params| && FitsBlock(fn.body, false)
    requires |EntryBody(fn)| < MODULUS
    requires CompileBlock(fn.body, Params(fn.params)).1.next < MODULUS
    ensures RunsAs(ReadEntry(Entry(fn)), fn, args, fuel)
  {
    EntryRoundTrip(fn);
    CompiledRuns(fn, args, fuel);
  }

  lemma CompiledRuns(fn: Fn, args: seq<Val>, fuel: nat)
    requires |args| == |fn.params| && FitsBlock(fn.body, false)
    ensures
      var (code, em) := CompileBlock(fn.body, Params(fn.params));
      RunsAs(Some((em.next - |fn.params|, code)), fn, args, fuel)
  {
    FunctionCorrect(fn, args, fuel);
  }

  /** The part of an entry after its size. */
  function AfterSize(bs: seq<Byte>): Option<(nat, seq<W.Instr>)> {
    match ReadU(bs)
    case None => None
    case Some((groups, rest1)) =>
      if groups == 0 then ReadCode(0, rest1)
      else if groups != 1 then None
      else
        match ReadU(rest1)
        case None => None
        case Some((n, rest2)) =>
          if rest2 == [] || rest2[0] != VT_I32 then None else ReadCode(n, rest2[1..])
  }

  lemma LocalsAndCode(extra: nat, code: seq<W.Instr>)
    requires extra < MODULUS && Encodable(code)
    ensures AfterSize(EntryBytes(extra, code)) == Some((extra, code))
  {
    DecodeBytes(code, OP_END, []);
    var body := Bytes(code) + [OP_END];
    assert body + [] == body;
    if extra == 0 {
      ReadUnsignedBack(0, body);
    } else {
      var tail := [VT_I32] + body;
      assert Uleb(1) + Uleb(extra) + [VT_I32] + body == Uleb(1) + (Uleb(extra) + tail);
      ReadUnsignedBack(1, Uleb(extra) + tail);
      ReadUnsignedBack(extra, tail);
      assert tail[1..] == body;
    }
  }

  // ----- modules -----

  datatype ModuleFn = ModuleFn(name: seq<Byte>, returnsUnit: bool, fn: Fn)

  function TypeOf(f: ModuleFn): FuncType {
    FuncType(|f.fn.params|, !f.returnsUnit)
  }

  /** The signature table: one entry a signature, and each function's index. */
  ghost predicate TypeTable(fns: seq<ModuleFn>, entries: seq<FuncType>, indices: seq<nat>) {
    && |indices| == |fns|
    && (forall i :: 0 <= i < |fns| ==> indices[i] < |entries| && entries[indices[i]] == TypeOf(fns[i]))
    && (forall i, j :: 0 <= i < j < |entries| ==> entries[i] != entries[j])
    && (forall k :: 0 <= k < |entries| ==> k in indices)
  }

  method CollectTypes(fns: seq<ModuleFn>) returns (entries: seq<FuncType>, indices: seq<nat>)
    ensures TypeTable(fns, entries, indices) && |entries| <= |fns|
  {
    entries, indices := [], [];
    for n := 0 to |fns|
      invariant TypeTable(fns[..n], entries, indices) && |entries| <= n
    {
      var t := TypeOf(fns[n]);
      var idx: nat := 0;
      while idx < |entries| && entries[idx] != t
        invariant 0 <= idx <= |entries|
        invariant forall j :: 0 <= j < idx ==> entries[j] != t
      {
        idx := idx + 1;
      }
      if idx == |entries| { entries := entries + [t]; }
      ghost var before := indices;
      indices := indices + [idx];
      assert fns[..n + 1] == fns[..n] + [fns[n]];
      assert forall k :: k in before ==> k in indices;
      assert indices[|before|] == idx;
    }
    assert fns[..|fns|] == fns;
  }

  const MEMORY: seq<Byte> := [0x6D, 0x65, 0x6D, 0x6F, 0x72, 0x79]

  function TypeItems(entries: seq<FuncType>): seq<seq<Byte>> {
    seq(|entries|, i requires 0 <= i < |entries| => TypeBytes(entries[i]))
  }

  function IndexItems(indices: seq<nat>): seq<seq<Byte>> {
    seq(|indices|, i requires 0 <= i < |indices| => Uleb(indices[i]))
  }

  function ExportItems(fns: seq<ModuleFn>): seq<seq<Byte>> {
    seq(|fns|, i requires 0 <= i < |fns| => ExportBytes(fns[i].name, 0x00, i)) + [ExportBytes(MEMORY, 0x02, 0)]
  }

  /** The five sections, in the order of section 5.5. */
  function ModuleSections(fns: seq<ModuleFn>, entries: seq<FuncType>, indices: seq<nat>): seq<Section> {
    [Section(1, VecBytes(TypeItems(entries))),
     Section(3, VecBytes(IndexItems(indices))),
     Section(5, VecBytes([[0x00] + Uleb(1)])),
     Section(7, VecBytes(ExportItems(fns))),
     Section(10, VecBytes(Entries(fns)))]
  }

  // ----- types, function indices, memory and exports, read back -----

  /** The signature a host finds for a function: all in `i32`, and a result unless it returns unit. */
  function SignatureOf(f: ModuleFn): Signature {
    Signature(|f.fn.params|, if f.returnsUnit then 0 else 1)
  }

  /** Function `i` has its own signature. */
  ghost predicate SignaturesRead(types: seq<Byte>, funcs: seq<Byte>, fns: seq<ModuleFn>) {
    var ts, ix := ReadVec(ReadType, types), ReadVec(ReadIndex, funcs);
    ts.Some? && ix.Some? && Assigned(ts.value, ix.value, fns)
  }

  ghost predicate Assigned(ts: seq<Signature>, ix: seq<nat>, fns: seq<ModuleFn>) {
    && |ix| == |fns|
    && forall i :: 0 <= i < |fns| ==> ix[i] < |ts| && ts[ix[i]] == SignatureOf(fns[i])
  }

  function FunctionExport(f: ModuleFn, i: nat): Export { Export(f.name, 0x00, i) }

  /** Each function is exported under its own name and number, and the one memory after them. */
  ghost predicate ExportsRead(exports: seq<Byte>, fns: seq<ModuleFn>) {
    var r := ReadVec(ReadExport, exports);
    && r.Some? && |r.value| == |fns| + 1
    && (forall i :: 0 <= i < |fns| ==> r.value[i] == FunctionExport(fns[i], i))
    && r.value[|fns|] == Export([0x6D, 0x65, 0x6D, 0x6F, 0x72, 0x79], 0x02, 0)
  }

  /** Names and parameter lists within the format's 32-bit limits. */
  predicate Named(f: ModuleFn) { |f.name| < MODULUS && |f.fn.params| < MODULUS }

  function Written(t: FuncType): Signature {
    Signature(t.params, if t.hasResult then 1 else 0)
  }

  lemma TypesBack(entries: seq<FuncType>, ts: seq<Signature>)
    requires |ts| == |entries| < MODULUS
    requires forall k :: 0 <= k < |ts| ==> ts[k] == Written(entries[k]) && entries[k].params < MODULUS
    ensures ReadVec(ReadType, VecBytes(TypeItems(entries))) == Some(ts)
  {
    forall k, rest | 0 <= k < |ts| ensures ReadType(TypeItems(entries)[k] + rest) == Some((ts[k], rest)) {
      TypeBack(entries[k], rest);
    }
    VecBack(ReadType, TypeItems(entries), ts);
  }

  lemma IndicesBack(indices: seq<nat>)
    requires |indices| < MODULUS && forall i :: 0 <= i < |indices| ==> indices[i] < MODULUS
    ensures ReadVec(ReadIndex, VecBytes(IndexItems(indices))) == Some(indices)
  {
    forall i, rest | 0 <= i < |indices| ensures ReadIndex(IndexItems(indices)[i] + rest) == Some((indices[i], rest)) {
      ReadUnsignedBack(indices[i], rest);
    }
    VecBack(ReadIndex, IndexItems(indices), indices);
  }

  /** Each entry of the table is the signature of some function. */
  lemma EntrySized(fns: seq<ModuleFn>, entries: seq<FuncType>, indices: seq<nat>, k: nat)
    requires TypeTable(fns, entries, indices) && k < |entries|
    requires forall i :: 0 <= i < |fns| ==> Named(fns[i])
    ensures entries[k].params < MODULUS
  {
    assert k in indices;
    var i :| 0 <= i < |indices| && indices[i] == k;
    assert Named(fns[i]) && entries[k] == TypeOf(fns[i]);
  }

  lemma SignaturesBack(fns: seq<ModuleFn>, entries: seq<FuncType>, indices: seq<nat>)
    requires TypeTable(fns, entries, indices) && |entries| <= |fns| < MODULUS
    requires forall i :: 0 <= i < |fns| ==> Named(fns[i])
    ensures SignaturesRead(VecBytes(TypeItems(entries)), VecBytes(IndexItems(indices)), fns)
  {
    var ts := seq(|entries|, k requires 0 <= k < |entries| => Written(entries[k]));
    forall k | 0 <= k < |entries| ensures entries[k].params < MODULUS { EntrySized(fns, entries, indices, k); }
    TypesBack(entries, ts);
    IndicesBack(indices);
  }

  lemma ExportsBack(fns: seq<ModuleFn>)
    requires |fns| + 1 < MODULUS && forall i :: 0 <= i < |fns| ==> Named(fns[i])
    ensures ExportsRead(VecBytes(ExportItems(fns)), fns)
  {
    var xs := seq(|fns|, i requires 0 <= i < |fns| => Export(fns[i].name, 0x00, i)) + [Export(MEMORY, 0x02, 0)];
    forall k, rest | 0 <= k < |xs| ensures ReadExport(ExportItems(fns)[k] + rest) == Some((xs[k], rest)) {
      if k < |fns| {
        assert Named(fns[k]);
        ExportBack(fns[k].name, 0x00, k, rest);
      } else {
        ExportBack(MEMORY, 0x02, 0, rest);
      }
    }
    VecBack(ReadExport, ExportItems(fns), xs);
  }

  /** One memory of at least one page. */
  lemma MemoryBack()
    ensures ReadVec(ReadLimits, VecBytes([[0x00] + Uleb(1)])) == Some([1])
  {
    forall rest ensures ReadLimits([0x00] + Uleb(1) + rest) == Some((1, rest)) { LimitsBack(1, rest); }
    VecBack(ReadLimits, [[0x00] + Uleb(1)], [1]);
  }

  // ----- the code section, read back -----

  type CodeEntry = (nat, seq<W.Instr>)

  /** The vector of section 5.5.13: a count, then entries read to their stated sizes. */
  function ReadCodeSection(bs: seq<Byte>): Option<seq<CodeEntry>> {
    match ReadU(bs)
    case None => None
    case Some((n, rest)) => ReadEntries(n, rest)
  }

  function ReadEntries(n: nat, bs: seq<Byte>): Option<seq<CodeEntry>>
    decreases n
  {
    if n == 0 then (if bs == [] then Some([]) else None)
    else
      match ReadU(bs)
      case None => None
      case Some((size, rest)) =>
        if size > |rest| then None
        else
          match (AfterSize(rest[..size]), ReadEntries(n - 1, rest[size..]))
          case (Some(e), Some(es)) => Some([e] + es)
          case _ => None
  }

  /** Within the format's 32-bit limits. */
  predicate Sized(fn: Fn) {
    |EntryBody(fn)| < MODULUS && CompileBlock(fn.body, Params(fn.params)).1.next < MODULUS
  }

  predicate AllSized(fns: seq<ModuleFn>) { fns == [] || (Sized(fns[0].fn) && Named(fns[0]) && AllSized(fns[1..])) }

  function CodeOf(fn: Fn): CodeEntry {
    var (code, em) := CompileBlock(fn.body, Params(fn.params));
    (em.next - |fn.params|, code)
  }

  function CodesOf(fns: seq<ModuleFn>): (r: seq<CodeEntry>)
    ensures |r| == |fns| && forall i :: 0 <= i < |fns| ==> r[i] == CodeOf(fns[i].fn)
  {
    if fns == [] then [] else [CodeOf(fns[0].fn)] + CodesOf(fns[1..])
  }

  function Entries(fns: seq<ModuleFn>): seq<seq<Byte>> {
    seq(|fns|, i requires 0 <= i < |fns| => Entry(fns[i].fn))
  }

  lemma OneEntryBack(body: seq<Byte>, rest: seq<Byte>, n: nat, e: CodeEntry, es: seq<CodeEntry>)
    requires |body| < MODULUS && n > 0 && AfterSize(body) == Some(e) && ReadEntries(n - 1, rest) == Some(es)
    ensures ReadEntries(n, Uleb(|body|) + body + rest) == Some([e] + es)
  {
    assert Uleb(|body|) + body + rest == Uleb(|body|) + (body + rest);
    ReadUnsignedBack(|body|, body + rest);
    assert (body + rest)[..|body|] == body && (body + rest)[|body|..] == rest;
  }

  lemma EntriesFirst(fns: seq<ModuleFn>)
    requires fns != []
    ensures Joined(Entries(fns)) == Entry(fns[0].fn) + Joined(Entries(fns[1..]))
  {
    assert Entries(fns)[0] == Entry(fns[0].fn) && Entries(fns)[1..] == Entries(fns[1..]);
  }

  lemma EntryBodyBack(fn: Fn)
    requires Sized(fn)
    ensures AfterSize(EntryBody(fn)) == Some(CodeOf(fn))
  {
    var (code, em) := CompileBlock(fn.body, Params(fn.params));
    ParamsBelow(fn.params);
    BlockEncodable(fn.body, Params(fn.params));
    LocalsAndCode(em.next - |fn.params|, code);
  }

  lemma EntryThen(fn: Fn, rest: seq<Byte>, n: nat, es: seq<CodeEntry>)
    requires Sized(fn) && n > 0 && ReadEntries(n - 1, rest) == Some(es)
    ensures ReadEntries(n, Entry(fn) + rest) == Some([CodeOf(fn)] + es)
  {
    EntryBodyBack(fn);
    OneEntryBack(EntryBody(fn), rest, n, CodeOf(fn), es);
  }

  lemma {:induction false} EntriesBack(fns: seq<ModuleFn>)
    requires AllSized(fns)
    ensures ReadEntries(|fns|, Joined(Entries(fns))) == Some(CodesOf(fns))
    decreases |fns|
  {
    if fns == [] {
      assert Entries(fns) == [];
    } else {
      EntriesBack(fns[1..]);
      EntriesThen(fns, fns[1..], CodesOf(fns[1..]));
    }
  }

  lemma EntriesThen(fns: seq<ModuleFn>, rest: seq<ModuleFn>, es: seq<CodeEntry>)
    requires fns != [] && Sized(fns[0].fn) && rest == fns[1..] && ReadEntries(|rest|, Joined(Entries(rest))) == Some(es)
    ensures ReadEntries(|fns|, Joined(Entries(fns))) == Some([CodeOf(fns[0].fn)] + es)
  {
    EntriesFirst(fns);
    EntryThen(fns[0].fn, Joined(Entries(rest)), |fns|, es);
  }

  lemma {:induction false} AllNamed(fns: seq<ModuleFn>)
    requires AllSized(fns)
    ensures forall i :: 0 <= i < |fns| ==> Named(fns[i])
    decreases |fns|
  {
    if fns != [] { AllNamed(fns[1..]); }
  }

  /** The code section of a module, read back: entry `i` is function `i`, and running
      it computes what the function means. */
  ghost predicate CodesRead(codes: seq<Byte>, fns: seq<ModuleFn>) {
    var r := ReadCodeSection(codes);
    r.Some? && |r.value| == |fns|
    && forall i, args, fuel ::
         0 <= i < |fns| && |args| == |fns[i].fn.params| && FitsBlock(fns[i].fn.body, false)
         ==> RunsAs(Some(r.value[i]), fns[i].fn, args, fuel)
  }

  /** What a reader of the whole module finds. */
  ghost predicate ModuleMeans(out: seq<Byte>, fns: seq<ModuleFn>) {
    && [0x00, 0x61, 0x73, 0x6D, 0x01, 0x00, 0x00, 0x00] <= out
    && exists types, funcs, memories, exports, codes ::
         PayloadsMean(types, funcs, memories, exports, codes, fns)
         && ParsedSections(out) ==
              [Section(1, types), Section(3, funcs), Section(5, memories), Section(7, exports), Section(10, codes)]
  }

  ghost predicate PayloadsMean(types: seq<Byte>, funcs: seq<Byte>, memories: seq<Byte>, exports: seq<Byte>,
                               codes: seq<Byte>, fns: seq<ModuleFn>) {
    && SignaturesRead(types, funcs, fns)
    && ReadVec(ReadLimits, memories) == Some([1])
    && ExportsRead(exports, fns)
    && CodesRead(codes, fns)
  }

  lemma SectionReads(fns: seq<ModuleFn>)
    requires |fns| < MODULUS && AllSized(fns)
    ensures ReadCodeSection(VecBytes(Entries(fns))) == Some(CodesOf(fns))
  {
    ReadUnsignedBack(|fns|, Joined(Entries(fns)));
    EntriesBack(fns);
  }

  lemma CodeMeans(fn: Fn, args: seq<Val>, fuel: nat)
    requires |args| == |fn.params| && FitsBlock(fn.body, false)
    ensures RunsAs(Some(CodeOf(fn)), fn, args, fuel)
  {
    CompiledRuns(fn, args, fuel);
  }

  lemma CodesMean(fns: seq<ModuleFn>)
    requires |fns| < MODULUS && AllSized(fns)
    ensures CodesRead(VecBytes(Entries(fns)), fns)
  {
    SectionReads(fns);
    var codes := CodesOf(fns);
    forall i, args, fuel: nat | 0 <= i < |fns| && |args| == |fns[i].fn.params| && FitsBlock(fns[i].fn.body, false)
      ensures RunsAs(Some(codes[i]), fns[i].fn, args, fuel)
    {
      CodeMeans(fns[i].fn, args, fuel);
    }
  }

  /** Whatever list of distinct signatures the emitter collected, each function comes
      back with its own signature, export and code. */
  lemma SectionsBack(fns: seq<ModuleFn>, entries: seq<FuncType>, indices: seq<nat>)
    requires TypeTable(fns, entries, indices) && |entries| <= |fns|
    requires |fns| + 1 < MODULUS && AllSized(fns)
    ensures PayloadsMean(VecBytes(TypeItems(entries)), VecBytes(IndexItems(indices)), VecBytes([[0x00] + Uleb(1)]),
                         VecBytes(ExportItems(fns)), VecBytes(Entries(fns)), fns)
  {
    AllNamed(fns);
    SignaturesBack(fns, entries, indices);
    MemoryBack();
    ExportsBack(fns);
    CodesMean(fns);
  }

  /** `WasmEmitter.emit`: reading the module back gives five sections, and they hold
      each function's signature, export and code. */
  method EmitModule(fns: seq<ModuleFn>) returns (out: seq<Byte>, entries: seq<FuncType>, indices: seq<nat>)
    ensures TypeTable(fns, entries, indices)
    ensures fns == [] ==> out == [0x00, 0x61, 0x73, 0x6D, 0x01, 0x00, 0x00, 0x00] && ParsedSections(out) == []
    ensures fns != [] ==> ParsedSections(out) == ModuleSections(fns, entries, indices)
    ensures fns != [] && |fns| + 1 < MODULUS && AllSized(fns) ==> ModuleMeans(out, fns)
  {
    if fns == [] {
      SectionsRoundTrip([]);
      assert HEADER + [] == HEADER;
      return HEADER, [], [];
    }
    entries, indices := CollectTypes(fns);
    var codes := EmitCodes(fns);
    var ss := ModuleSections(fns, entries, indices);
    ss := ss[4 := Section(10, VecBytes(codes))];
    out := HEADER + Framed(ss);
    SectionsRoundTrip(ss);
    if |fns| + 1 < MODULUS && AllSized(fns) { SectionsBack(fns, entries, indices); }
  }

  method EmitCodes(fns: seq<ModuleFn>) returns (codes: seq<seq<Byte>>)
    ensures codes == Entries(fns)
  {
    codes := [];
    for n := 0 to |fns|
      invariant |codes| == n && forall i :: 0 <= i < n ==> codes[i] == Entry(fns[i].fn)
    {
      var em := new FnEmitter(fns[n].fn.params);
      var c := em.Encode(fns[n].fn);
      codes := codes + [c];
    }
  }
}
