/** The vectors of a module's type, function, memory and export sections
    (sections 5.5.4, 5.5.6, 5.5.8 and 5.5.10 of WebAssembly Core 1.0): how the
    emitter writes their items, and readers for them. */
module WasmSections {
  import opened Wrappers
  import opened Leb128
  import opened I32
  import opened WasmBinary

  // ----- writing -----

  datatype FuncType = FuncType(params: nat, hasResult: bool)

  function TypeBytes(t: FuncType): seq<Byte> {
    [0x60] + Uleb(t.params) + seq(t.params, _ => VT_I32) + (if t.hasResult then Uleb(1) + [VT_I32] else Uleb(0))
  }

  function ExportBytes(name: seq<Byte>, kind: Byte, index: nat): seq<Byte> {
    Uleb(|name|) + name + [kind] + Uleb(index)
  }

  function Joined(items: seq<seq<Byte>>): seq<Byte> {
    if items == [] then [] else items[0] + Joined(items[1..])
  }

  function VecBytes(items: seq<seq<Byte>>): seq<Byte> {
    Uleb(|items|) + Joined(items)
  }

  // ----- reading -----

  /** What an item reader returns: the item and what follows it. */
  type Read<T> = Option<(T, seq<Byte>)>

  function ReadItems<T>(item: seq<Byte> -> Read<T>, n: nat, bs: seq<Byte>): Option<seq<T>>
    decreases n
  {
    if n == 0 then (if bs == [] then Some([]) else None)
    else
      match item(bs)
      case None => None
      case Some((x, rest)) =>
        match ReadItems(item, n - 1, rest)
        case None => None
        case Some(xs) => Some([x] + xs)
  }

  /** A whole vector: the count, that many items, and nothing after them. */
  function ReadVec<T>(item: seq<Byte> -> Read<T>, bs: seq<Byte>): Option<seq<T>> {
    match ReadU(bs)
    case None => None
    case Some((n, rest)) => ReadItems(item, n, rest)
  }

  /** A result type in which every value type is `i32`: how many there are. */
  function ReadI32s(bs: seq<Byte>): Read<nat> {
    match ReadU(bs)
    case None => None
    case Some((n, rest)) =>
      if n > |rest| || exists i :: 0 <= i < n && rest[i] != 0x7F then None else Some((n, rest[n..]))
  }

  /** Parameters and results of a function type. */
  datatype Signature = Signature(params: nat, results: nat)

  function ReadType(bs: seq<Byte>): Read<Signature> {
    if bs == [] || bs[0] != 0x60 then None
    else
      match ReadI32s(bs[1..])
      case None => None
      case Some((params, rest)) =>
        match ReadI32s(rest)
        case None => None
        case Some((results, after)) => Some((Signature(params, results), after))
  }

  /** The limits of a memory without a maximum: its least number of pages. */
  function ReadLimits(bs: seq<Byte>): Read<nat> {
    if bs == [] || bs[0] != 0x00 then None else ReadU(bs[1..])
  }

  datatype Export = Export(name: seq<Byte>, kind: Byte, index: nat)

  function ReadExport(bs: seq<Byte>): Read<Export> {
    match ReadU(bs)
    case None => None
    case Some((size, rest)) =>
      if size >= |rest| then None
      else
        match ReadU(rest[size + 1..])
        case None => None
        case Some((index, after)) => Some((Export(rest[..size], rest[size], index), after))
  }

  function ReadIndex(bs: seq<Byte>): Read<nat> {
    ReadU(bs)
  }

  // ----- reading back what was written -----

  /** Each byte string reads as its item, whatever follows. */
  ghost predicate ReadsAs<T(!new)>(item: seq<Byte> -> Read<T>, bytes: seq<seq<Byte>>, xs: seq<T>) {
    |bytes| == |xs| && forall i, rest :: 0 <= i < |xs| ==> item(bytes[i] + rest) == Some((xs[i], rest))
  }

  lemma {:induction false} ItemsBack<T(!new)>(item: seq<Byte> -> Read<T>, bytes: seq<seq<Byte>>, xs: seq<T>)
    requires ReadsAs(item, bytes, xs)
    ensures ReadItems(item, |xs|, Joined(bytes)) == Some(xs)
    decreases |xs|
  {
    if xs != [] {
      assert ReadsAs(item, bytes[1..], xs[1..]);
      ItemsBack(item, bytes[1..], xs[1..]);
      assert item(bytes[0] + Joined(bytes[1..])) == Some((xs[0], Joined(bytes[1..])));
      assert [xs[0]] + xs[1..] == xs;
    }
  }

  lemma VecBack<T(!new)>(item: seq<Byte> -> Read<T>, bytes: seq<seq<Byte>>, xs: seq<T>)
    requires ReadsAs(item, bytes, xs) && |xs| < MODULUS
    ensures ReadVec(item, VecBytes(bytes)) == Some(xs)
  {
    ReadUnsignedBack(|xs|, Joined(bytes));
    ItemsBack(item, bytes, xs);
  }

  lemma I32sBack(n: nat, types: seq<Byte>, rest: seq<Byte>)
    requires n == |types| < MODULUS && forall i :: 0 <= i < n ==> types[i] == 0x7F
    ensures ReadI32s(Uleb(n) + types + rest) == Some((n, rest))
  {
    assert Uleb(n) + types + rest == Uleb(n) + (types + rest);
    ReadUnsignedBack(n, types + rest);
    assert (types + rest)[n..] == rest;
  }

  lemma TypeBack(t: FuncType, rest: seq<Byte>)
    requires t.params < MODULUS
    ensures ReadType(TypeBytes(t) + rest) == Some((Signature(t.params, if t.hasResult then 1 else 0), rest))
  {
    var params := seq(t.params, _ => VT_I32);
    var results := if t.hasResult then [VT_I32] else [];
    var after := Uleb(|results|) + results + rest;
    I32sBack(t.params, params, after);
    I32sBack(|results|, results, rest);
    TypeShape(t, Uleb(t.params), params, Uleb(|results|), results, rest);
    assert ([0x60] + (Uleb(t.params) + params + after))[1..] == Uleb(t.params) + params + after;
  }

  lemma TypeShape(t: FuncType, n: seq<Byte>, params: seq<Byte>, m: seq<Byte>, results: seq<Byte>, rest: seq<Byte>)
    requires n == Uleb(t.params) && params == seq(t.params, _ => VT_I32)
    requires results == (if t.hasResult then [VT_I32] else []) && m == Uleb(|results|)
    ensures TypeBytes(t) + rest == [0x60] + (n + params + (m + results + rest))
  {
    assert m + results == if t.hasResult then Uleb(1) + [VT_I32] else Uleb(0);
    Grouped([0x60], n, params, m, results, rest);
  }

  lemma Grouped(a: seq<Byte>, b: seq<Byte>, c: seq<Byte>, d: seq<Byte>, e: seq<Byte>, rest: seq<Byte>)
    ensures a + b + c + (d + e) + rest == a + (b + c + (d + e + rest))
  {
  }

  lemma LimitsBack(min: nat, rest: seq<Byte>)
    requires min < MODULUS
    ensures ReadLimits([0x00] + Uleb(min) + rest) == Some((min, rest))
  {
    assert ([0x00] + Uleb(min) + rest)[1..] == Uleb(min) + rest;
    ReadUnsignedBack(min, rest);
  }

  lemma ExportBack(name: seq<Byte>, kind: Byte, index: nat, rest: seq<Byte>)
    requires |name| < MODULUS && index < MODULUS
    ensures ReadExport(ExportBytes(name, kind, index) + rest) == Some((Export(name, kind, index), rest))
  {
    var tail := name + [kind] + (Uleb(index) + rest);
    assert ExportBytes(name, kind, index) + rest == Uleb(|name|) + tail;
    ReadUnsignedBack(|name|, tail);
    assert tail[..|name|] == name && tail[|name|] == kind && tail[|name| + 1..] == Uleb(index) + rest;
    ReadUnsignedBack(index, rest);
  }
}
