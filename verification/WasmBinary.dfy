/** Binary form: instructions (section 5.4 of WebAssembly Core 1.0), function
    entries (section 5.5.13) and the section framing (section 5.5). */
module WasmBinary {
  import opened Powers
  import opened Wrappers
  import opened Leb128
  import opened I32
  import opened WasmCore

  const OP_BLOCK: Byte := 0x02
  const OP_LOOP: Byte := 0x03
  const OP_IF: Byte := 0x04
  const OP_ELSE: Byte := 0x05
  const OP_END: Byte := 0x0B
  const OP_BR: Byte := 0x0C
  const OP_BR_IF: Byte := 0x0D
  const OP_RETURN: Byte := 0x0F
  const OP_DROP: Byte := 0x1A
  const OP_LOCAL_GET: Byte := 0x20
  const OP_LOCAL_SET: Byte := 0x21
  const OP_CONST: Byte := 0x41
  const OP_EQZ: Byte := 0x45
  const VT_I32: Byte := 0x7F
  const VOID: Byte := 0x40

  function Opcode(op: NumOp): Byte {
    match op
    case Add => 0x6A
    case Sub => 0x6B
    case Mul => 0x6C
    case DivS => 0x6D
    case RemS => 0x6F
    case Eq => 0x46
    case Ne => 0x47
    case LtS => 0x48
    case LeS => 0x4C
    case GtS => 0x4A
    case GeS => 0x4E
    case And => 0x71
    case Or => 0x72
    case Xor => 0x73
    case Shl => 0x74
    case ShrS => 0x75
  }

  function OpOf(b: Byte): Option<NumOp> {
    match b
    case 0x6A => Some(Add)
    case 0x6B => Some(Sub)
    case 0x6C => Some(Mul)
    case 0x6D => Some(DivS)
    case 0x6F => Some(RemS)
    case 0x46 => Some(Eq)
    case 0x47 => Some(Ne)
    case 0x48 => Some(LtS)
    case 0x4C => Some(LeS)
    case 0x4A => Some(GtS)
    case 0x4E => Some(GeS)
    case 0x71 => Some(And)
    case 0x72 => Some(Or)
    case 0x73 => Some(Xor)
    case 0x74 => Some(Shl)
    case 0x75 => Some(ShrS)
    case _ => None
  }

  function Bytes(code: seq<Instr>): seq<Byte>
    decreases code
  {
    if code == [] then [] else InstrBytes(code[0]) + Bytes(code[1..])
  }

  function InstrBytes(i: Instr): (bs: seq<Byte>)
    ensures |bs| >= 1
    decreases i
  {
    match i
    case Const(n) => [OP_CONST] + Sleb(n)
    case LocalGet(s) => [OP_LOCAL_GET] + Uleb(s)
    case LocalSet(s) => [OP_LOCAL_SET] + Uleb(s)
    case Drop => [OP_DROP]
    case Eqz => [OP_EQZ]
    case Num(op) => [Opcode(op)]
    case If(thn) => [OP_IF, VOID] + Bytes(thn) + [OP_END]
    case IfElse(thn, els) => [OP_IF, VT_I32] + Bytes(thn) + [OP_ELSE] + Bytes(els) + [OP_END]
    case Block(body) => [OP_BLOCK, VOID] + Bytes(body) + [OP_END]
    case Loop(body) => [OP_LOOP, VOID] + Bytes(body) + [OP_END]
    case BrIf(l) => [OP_BR_IF] + Uleb(l)
    case Br(l) => [OP_BR] + Uleb(l)
    case Return => [OP_RETURN]
  }

  lemma {:induction false} BytesConcat(a: seq<Instr>, b: seq<Instr>)
    ensures Bytes(a + b) == Bytes(a) + Bytes(b)
    decreases |a|
  {
    if a == [] {
      assert a + b == b;
    } else {
      assert (a + b)[0] == a[0] && (a + b)[1..] == a[1..] + b;
      BytesConcat(a[1..], b);
    }
  }

  /** Reads an unsigned 32-bit immediate and hands it to `Rest`. */
  function ReadU(bs: seq<Byte>): (r: Option<(nat, seq<Byte>)>)
    ensures r.Some? ==> |r.value.1| < |bs|
  {
    match SpecU(32, bs)
    case None => None
    case Some(p) => if 0 <= p.0 && 1 <= p.1 <= |bs| then Some((p.0, bs[p.1..])) else None
  }

  function ReadS(bs: seq<Byte>): (r: Option<(Int32, seq<Byte>)>)
    ensures r.Some? ==> |r.value.1| < |bs|
  {
    match SpecS(32, bs)
    case None => None
    case Some(p) =>
      if -HALF <= p.0 < HALF && 1 <= p.1 <= |bs| then Some((p.0, bs[p.1..])) else None
  }

  datatype Parsed = Bad | Parsed(code: seq<Instr>, stop: Byte, rest: seq<Byte>)
  datatype ParsedOne = BadOne | ParsedOne(instr: Instr, rest: seq<Byte>)

  /** Reads instructions up to an `end` or an `else`. */
  function Decode(bs: seq<Byte>): (r: Parsed)
    ensures r.Parsed? ==> |r.rest| < |bs|
    decreases |bs|, 1
  {
    if bs == [] then Bad
    else if bs[0] == OP_END || bs[0] == OP_ELSE then Parsed([], bs[0], bs[1..])
    else match DecodeOne(bs)
      case BadOne => Bad
      case ParsedOne(i, rest) =>
        match Decode(rest)
        case Bad => Bad
        case Parsed(code, stop, rest') => Parsed([i] + code, stop, rest')
  }

  function DecodeOne(bs: seq<Byte>): (r: ParsedOne)
    requires bs != []
    ensures r.ParsedOne? ==> |r.rest| < |bs|
    decreases |bs|, 0
  {
    var op, tail := bs[0], bs[1..];
    if op == OP_CONST then
      var r := ReadS(tail); if r.None? then BadOne else ParsedOne(Const(r.value.0), r.value.1)
    else if op == OP_LOCAL_GET || op == OP_LOCAL_SET || op == OP_BR || op == OP_BR_IF then
      var r := ReadU(tail);
      if r.None? then BadOne
      else ParsedOne(if op == OP_LOCAL_GET then LocalGet(r.value.0) else if op == OP_LOCAL_SET then LocalSet(r.value.0)
                     else if op == OP_BR then Br(r.value.0) else BrIf(r.value.0), r.value.1)
    else if op == OP_DROP then ParsedOne(Drop, tail)
    else if op == OP_EQZ then ParsedOne(Eqz, tail)
    else if op == OP_RETURN then ParsedOne(Return, tail)
    else if op == OP_IF || op == OP_BLOCK || op == OP_LOOP then
      if tail == [] then BadOne
      else
        match Decode(tail[1..])
        case Bad => BadOne
        case Parsed(body, stop, rest) =>
          if tail[0] == VOID && stop == OP_END then
            ParsedOne(if op == OP_IF then If(body) else if op == OP_BLOCK then Block(body) else Loop(body), rest)
          else if op == OP_IF && tail[0] == VT_I32 && stop == OP_ELSE then
            match Decode(rest)
            case Bad => BadOne
            case Parsed(els, stop', rest') => if stop' == OP_END then ParsedOne(IfElse(body, els), rest') else BadOne
          else BadOne
    else match OpOf(op) case None => BadOne case Some(n) => ParsedOne(Num(n), tail)
  }

  /** Immediates fit the 32 bits the format gives them. */
  predicate Encodable(code: seq<Instr>)
    decreases code
  {
    forall i :: 0 <= i < |code| ==> EncodableOne(code[i])
  }

  predicate EncodableOne(i: Instr)
    decreases i
  {
    match i
    case LocalGet(s) => s < MODULUS
    case LocalSet(s) => s < MODULUS
    case If(thn) => Encodable(thn)
    case IfElse(thn, els) => Encodable(thn) && Encodable(els)
    case Block(body) => Encodable(body)
    case Loop(body) => Encodable(body)
    case BrIf(l) => l < MODULUS
    case Br(l) => l < MODULUS
    case _ => true
  }

  lemma ReadUnsignedBack(n: nat, post: seq<Byte>)
    requires n < MODULUS
    ensures ReadU(Uleb(n) + post) == Some((n, post))
  {
    WordWidth();
    UnsignedMeetsSpec(32, n, post);
    assert (Uleb(n) + post)[|Uleb(n)|..] == post;
  }

  lemma ReadSignedBack(n: Int32, post: seq<Byte>)
    ensures ReadS(Sleb(n) + post) == Some((n, post))
  {
    WordWidth();
    assert Pow2(32) == 2 * Pow2(31);
    SignedMeetsSpec(32, n, post);
    assert (Sleb(n) + post)[|Sleb(n)|..] == post;
  }

  /** Decoding gives back the code, its terminator and what follows. */
  lemma {:induction false} DecodeBytes(code: seq<Instr>, stop: Byte, rest: seq<Byte>)
    requires Encodable(code) && (stop == OP_END || stop == OP_ELSE)
    ensures Decode(Bytes(code) + [stop] + rest) == Parsed(code, stop, rest)
    decreases code, 1
  {
    var bs := Bytes(code) + [stop] + rest;
    if code == [] {
      assert bs == [stop] + rest;
    } else {
      var tail := Bytes(code[1..]) + [stop] + rest;
      assert bs == InstrBytes(code[0]) + tail;
      DecodeOneBytes(code[0], tail);
      DecodeBytes(code[1..], stop, rest);
      assert [code[0]] + code[1..] == code;
    }
  }

  lemma {:induction false} DecodeOneBytes(i: Instr, rest: seq<Byte>)
    requires EncodableOne(i)
    ensures DecodeOne(InstrBytes(i) + rest) == ParsedOne(i, rest)
    ensures InstrBytes(i)[0] != OP_END && InstrBytes(i)[0] != OP_ELSE
    decreases i, 1
  {
    match i
    case Const(n) => ConstBytes(n, rest);
    case LocalGet(_) | LocalSet(_) | BrIf(_) | Br(_) => IndexBytes(i, rest);
    case If(_) | Block(_) | Loop(_) => NestBytes(i, rest);
    case IfElse(thn, els) => IfElseBytes(thn, els, rest);
    case _ => PlainBytes(i, rest);
  }

  lemma ConstBytes(n: Int32, rest: seq<Byte>)
    ensures DecodeOne(InstrBytes(Const(n)) + rest) == ParsedOne(Const(n), rest)
  {
    assert (InstrBytes(Const(n)) + rest)[1..] == Sleb(n) + rest;
    ReadSignedBack(n, rest);
  }

  lemma PlainBytes(i: Instr, rest: seq<Byte>)
    requires i.Drop? || i.Eqz? || i.Return? || i.Num?
    ensures DecodeOne(InstrBytes(i) + rest) == ParsedOne(i, rest)
  {
    assert (InstrBytes(i) + rest)[1..] == rest;
    if i.Num? { assert OpOf(Opcode(i.op)) == Some(i.op); }
  }

  lemma {:induction false} NestBytes(i: Instr, rest: seq<Byte>)
    requires (i.If? || i.Block? || i.Loop?) && EncodableOne(i)
    ensures DecodeOne(InstrBytes(i) + rest) == ParsedOne(i, rest)
    decreases i, 0
  {
    match i
    case If(body) =>
      NestShape(OP_IF, Bytes(body), rest);
      Nested(InstrBytes(i) + rest, body, OP_END, rest);
    case Block(body) =>
      NestShape(OP_BLOCK, Bytes(body), rest);
      Nested(InstrBytes(i) + rest, body, OP_END, rest);
    case Loop(body) =>
      NestShape(OP_LOOP, Bytes(body), rest);
      Nested(InstrBytes(i) + rest, body, OP_END, rest);
  }

  lemma NestShape(op: Byte, a: seq<Byte>, rest: seq<Byte>)
    ensures
      var bs := [op, VOID] + a + [OP_END] + rest;
      bs[..2] == [op, VOID] && bs == bs[..2] + a + [OP_END] + rest && bs[0] == op && bs[1] == VOID
  {
  }

  lemma IndexBytes(i: Instr, rest: seq<Byte>)
    requires (i.LocalGet? || i.LocalSet? || i.BrIf? || i.Br?) && EncodableOne(i)
    ensures DecodeOne(InstrBytes(i) + rest) == ParsedOne(i, rest)
  {
    var n := if i.LocalGet? || i.LocalSet? then i.slot else i.depth;
    assert (InstrBytes(i) + rest)[1..] == Uleb(n) + rest;
    ReadUnsignedBack(n, rest);
  }

  lemma {:induction false} IfElseBytes(thn: seq<Instr>, els: seq<Instr>, rest: seq<Byte>)
    requires Encodable(thn) && Encodable(els)
    ensures DecodeOne(InstrBytes(IfElse(thn, els)) + rest) == ParsedOne(IfElse(thn, els), rest)
    decreases IfElse(thn, els), 0
  {
    var bs := InstrBytes(IfElse(thn, els)) + rest;
    var tail := Bytes(els) + [OP_END] + rest;
    IfElseShape(Bytes(thn), Bytes(els), rest);
    Nested(bs, thn, OP_ELSE, tail);
    DecodeBytes(els, OP_END, rest);
  }

  lemma IfElseShape(a: seq<Byte>, b: seq<Byte>, rest: seq<Byte>)
    ensures
      var bs := [OP_IF, VT_I32] + a + [OP_ELSE] + b + [OP_END] + rest;
      bs[..2] == [OP_IF, VT_I32] && bs == bs[..2] + a + [OP_ELSE] + (b + [OP_END] + rest)
  {
  }

  lemma {:induction false} Nested(bs: seq<Byte>, body: seq<Instr>, stop: Byte, rest: seq<Byte>)
    requires |bs| >= 2 && Encodable(body) && (stop == OP_END || stop == OP_ELSE)
    requires bs == bs[..2] + Bytes(body) + [stop] + rest
    ensures bs[1..] != [] && bs[1..][0] == bs[1]
    ensures Decode(bs[1..][1..]) == Parsed(body, stop, rest)
    decreases body, 2
  {
    assert bs[1..][1..] == Bytes(body) + [stop] + rest;
    DecodeBytes(body, stop, rest);
  }

  // ----- sections -----

  const HEADER: seq<Byte> := [0x00, 0x61, 0x73, 0x6D, 0x01, 0x00, 0x00, 0x00]

  datatype Section = Section(id: Byte, payload: seq<Byte>)

  function SectionBytes(s: Section): seq<Byte> {
    [s.id] + Uleb(|s.payload|) + s.payload
  }

  function Framed(ss: seq<Section>): seq<Byte> {
    if ss == [] then [] else SectionBytes(ss[0]) + Framed(ss[1..])
  }

  /** The section preambles from offset `i` on; a section that overruns ends the list. */
  function SectionsFrom(data: seq<Byte>, i: nat): seq<Section>
    requires i <= |data|
    decreases |data| - i
  {
    if i == |data| then []
    else
      var (size, n) := DecodeU(data, i + 1);
      var start := i + 1 + n;
      if start + size > |data| then []
      else [Section(data[i], data[start..start + size])] + SectionsFrom(data, start + size)
  }

  function ParsedSections(data: seq<Byte>): seq<Section> {
    if HEADER <= data then SectionsFrom(data, |HEADER|) else []
  }

  method ParseSections(data: seq<Byte>) returns (out: seq<Section>)
    ensures out == ParsedSections(data)
  {
    out := [];
    if !(HEADER <= data) { return; }
    var i: nat := |HEADER|;
    while i < |data|
      invariant |HEADER| <= i <= |data|
      invariant Collected(out, data, i)
      decreases |data| - i
    {
      var id := data[i];
      var size, n := ReadUnsigned(data, i + 1);
      var start := i + 1 + n;
      CollectStep(out, data, i);
      if start + size > |data| { return; }
      out := out + [Section(id, data[start..start + size])];
      i := start + size;
    }
  }

  /** What has been read and what is still ahead make up the whole list. */
  ghost predicate Collected(out: seq<Section>, data: seq<Byte>, i: nat)
    requires |HEADER| <= i <= |data|
  {
    out + SectionsFrom(data, i) == SectionsFrom(data, |HEADER|)
  }

  lemma CollectStep(out: seq<Section>, data: seq<Byte>, i: nat)
    requires |HEADER| <= i < |data| && Collected(out, data, i)
    ensures
      var (size, n) := DecodeU(data, i + 1);
      var start := i + 1 + n;
      if start + size > |data| then out == SectionsFrom(data, |HEADER|)
      else Collected(out + [Section(data[i], data[start..start + size])], data, start + size)
  {
    var (size, n) := DecodeU(data, i + 1);
    var start := i + 1 + n;
    SectionsStep(data, i);
    if start + size <= |data| {
      AppendSection(out, Section(data[i], data[start..start + size]), SectionsFrom(data, start + size));
    }
  }

  lemma SectionsStep(data: seq<Byte>, i: nat)
    requires i < |data|
    ensures
      var (size, n) := DecodeU(data, i + 1);
      var start := i + 1 + n;
      SectionsFrom(data, i) == if start + size > |data| then []
                               else [Section(data[i], data[start..start + size])] + SectionsFrom(data, start + size)
  {
  }

  lemma AppendSection(a: seq<Section>, s: Section, b: seq<Section>)
    ensures a + ([s] + b) == (a + [s]) + b
  {
  }

  /** A framed section between what comes before and after it. */
  lemma FrameShape(pre: seq<Byte>, id: Byte, size: seq<Byte>, payload: seq<Byte>, rest: seq<Byte>)
    ensures
      var data := pre + ([id] + size + payload + rest);
      && data == (pre + [id]) + size + (payload + rest) && data == pre + ([id] + size + payload) + rest
      && data[|pre|] == id
      && data[|pre| + 1 + |size|..|pre| + 1 + |size| + |payload|] == payload
  {
  }

  lemma TakeSection(data: seq<Byte>, i: nat, s: Section, n: nat, next: nat)
    requires next == i + 1 + n + |s.payload|
    requires i < |data| && data[i] == s.id && DecodeU(data, i + 1) == (|s.payload|, n)
    requires i + 1 + n + |s.payload| <= |data| && data[i + 1 + n..i + 1 + n + |s.payload|] == s.payload
    ensures SectionsFrom(data, i) == [s] + SectionsFrom(data, next)
  {
    SectionsStep(data, i);
  }

  lemma {:induction false} FrameStep(pre: seq<Byte>, s: Section, rest: seq<Byte>, data: seq<Byte>) returns (after: seq<Byte>)
    requires data == pre + (SectionBytes(s) + rest)
    ensures after == pre + SectionBytes(s) && data == after + rest
    ensures SectionsFrom(data, |pre|) == [s] + SectionsFrom(data, |after|)
  {
    after := pre + SectionBytes(s);
    var size := Uleb(|s.payload|);
    FrameShape(pre, s.id, size, s.payload, rest);
    UnsignedAt(data, |pre| + 1, |s.payload|, pre + [s.id], s.payload + rest);
    FrameLength(pre, s);
    TakeSection(data, |pre|, s, |size|, |after|);
  }

  lemma FrameLength(pre: seq<Byte>, s: Section)
    ensures |pre + SectionBytes(s)| == |pre| + 1 + |Uleb(|s.payload|)| + |s.payload|
  {
  }

  lemma UnsignedAt(data: seq<Byte>, off: nat, n: nat, pre: seq<Byte>, post: seq<Byte>)
    requires data == pre + Uleb(n) + post && off == |pre|
    ensures DecodeU(data, off) == (n, |Uleb(n)|)
  {
    UnsignedRoundTrip(pre, n, post);
  }

  /** Any list of framed sections is recovered, whatever comes before it. */
  lemma {:induction false} FramedRoundTrip(pre: seq<Byte>, ss: seq<Section>, data: seq<Byte>)
    requires data == pre + Framed(ss)
    ensures SectionsFrom(data, |pre|) == ss
    decreases |ss|
  {
    if ss != [] {
      var after := FrameStep(pre, ss[0], Framed(ss[1..]), data);
      FramedRoundTrip(after, ss[1..], data);
      assert ss == [ss[0]] + ss[1..];
    }
  }

  lemma SectionsRoundTrip(ss: seq<Section>)
    ensures ParsedSections(HEADER + Framed(ss)) == ss
  {
    FramedRoundTrip(HEADER, ss, HEADER + Framed(ss));
  }
}
