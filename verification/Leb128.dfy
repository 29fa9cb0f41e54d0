/** LEB128 integers, as the Wasm emitter writes them and as section 5.2.2 of
    WebAssembly Core 1.0 reads them back. */
module Leb128 {
  import opened Wrappers
  import opened Powers

  type Byte = b: int | 0 <= b < 256

  /** The unsigned encoding: seven bits a byte, low bits first. */
  function Uleb(n: nat): (bs: seq<Byte>)
    ensures |bs| >= 1
  {
    if n < 128 then [n] else [n % 128 + 128] + Uleb(n / 128)
  }

  /** The signed encoding. `/` and `%` are Dafny's Euclidean operators, which
      for the positive divisor 128 are the arithmetic shift and the mask. */
  function Sleb(n: int): (bs: seq<Byte>)
    ensures |bs| >= 1
    decreases if n < 0 then -n else n
  {
    if -64 <= n < 64 then [n % 128] else [n % 128 + 128] + Sleb(n / 128)
  }

  /** The writer loop for unsigned integers; a negative argument is an error. */
  method EncodeUnsigned(n: int) returns (r: Result<seq<Byte>>)
    ensures n < 0 ==> r.Failure?
    ensures n >= 0 ==> r == Success(Uleb(n))
  {
    if n < 0 { return Failure("uleb128 needs non-negative int"); }
    var rest: nat := n;
    var out: seq<Byte> := [];
    while rest >= 128
      invariant out + Uleb(rest) == Uleb(n)
    {
      var last := out;
      assert Uleb(rest) == [rest % 128 + 128] + Uleb(rest / 128);
      out := out + [rest % 128 + 128];
      rest := rest / 128;
      assert out + Uleb(rest) == last + ([out[|last|]] + Uleb(rest));
    }
    return Success(out + [rest]);
  }

  /** The writer loop for signed integers, stopping on the sign bit. */
  method EncodeSigned(n: int) returns (out: seq<Byte>)
    ensures out == Sleb(n)
  {
    var rest := n;
    var more := true;
    out := [];
    while more
      invariant more ==> out + Sleb(rest) == Sleb(n)
      invariant !more ==> out == Sleb(n)
      decreases more, if rest < 0 then -rest else rest
    {
      var low: Byte := rest % 128;
      var was, last := rest, out;
      rest := rest / 128;
      var sign := low >= 64;
      if (rest == 0 && !sign) || (rest == -1 && sign) {
        assert Sleb(was) == [low];
        more := false;
        out := out + [low];
      } else {
        assert Sleb(was) == [low + 128] + Sleb(rest);
        out := out + [low + 128];
        assert out + Sleb(rest) == last + ([low + 128] + Sleb(rest));
      }
    }
  }

  /** What the reader returns at `off`: the number and the bytes consumed. A
      string that ends early yields what was read so far. */
  function DecodeU(data: seq<Byte>, off: nat): (r: (nat, nat))
    decreases |data| - off
    ensures off <= |data| ==> off + r.1 <= |data|
  {
    if off >= |data| then (0, 0)
    else if data[off] < 128 then (data[off], 1)
    else var (v, n) := DecodeU(data, off + 1); (data[off] - 128 + 128 * v, n + 1)
  }

  lemma Regroup(scale: int, b: int, tail: int)
    ensures scale * (b + 128 * tail) == b * scale + (scale * 128) * tail
  {
  }

  /** The reader loop: or-ing a shifted group is an addition, the bits being
      disjoint, so `scale` stands for `1 << shift`. */
  method ReadUnsigned(data: seq<Byte>, off: nat) returns (value: nat, n: nat)
    ensures (value, n) == DecodeU(data, off)
  {
    value, n := 0, 0;
    var scale: nat := 1;
    while off + n < |data| && data[off + n] >= 128
      invariant DecodeU(data, off).0 == value + scale * DecodeU(data, off + n).0
      invariant DecodeU(data, off).1 == n + DecodeU(data, off + n).1
      decreases |data| - (off + n)
    {
      var b: nat := data[off + n] - 128;
      Regroup(scale, b, DecodeU(data, off + n + 1).0);
      value := value + b * scale;
      scale := scale * 128;
      n := n + 1;
    }
    if off + n < |data| {
      value := value + data[off + n] * scale;
      n := n + 1;
    }
  }

  /** Reading at any offset, before any suffix, gives the number and its length. */
  lemma {:induction false} UnsignedRoundTrip(pre: seq<Byte>, n: nat, post: seq<Byte>)
    ensures DecodeU(pre + Uleb(n) + post, |pre|) == (n, |Uleb(n)|)
    decreases n
  {
    var data := pre + Uleb(n) + post;
    if n >= 128 {
      UnsignedRoundTrip(pre + [n % 128 + 128], n / 128, post);
      assert data == pre + [n % 128 + 128] + Uleb(n / 128) + post;
    }
  }

  /** The unsigned grammar of section 5.2.2, at width `bits`: value and length. */
  function SpecU(bits: nat, bs: seq<Byte>): Option<(int, nat)>
  {
    if bs == [] then None
    else if bs[0] < 128 then
      if bs[0] < Pow2(bits) then Some((bs[0], 1)) else None
    else if bits <= 7 then None
    else match SpecU(bits - 7, bs[1..])
      case None => None
      case Some(r) => Some((128 * r.0 + (bs[0] - 128), r.1 + 1))
  }

  /** The signed grammar of section 5.2.2, at width `bits`. */
  function SpecS(bits: nat, bs: seq<Byte>): Option<(int, nat)>
    requires bits >= 1
  {
    if bs == [] then None
    else
      var b: int := bs[0];
      if b < 64 then
        if b < Pow2(bits - 1) then Some((b, 1)) else None
      else if b < 128 then
        if b >= 128 - Pow2(bits - 1) then Some((b - 128, 1)) else None
      else if bits <= 7 then None
      else match SpecS(bits - 7, bs[1..])
        case None => None
        case Some(r) => Some((128 * r.0 + (b - 128), r.1 + 1))
  }

  /** Every number that fits the width is read back exactly. */
  lemma {:induction false} UnsignedMeetsSpec(bits: nat, n: nat, post: seq<Byte>)
    requires bits >= 1 && n < Pow2(bits)
    ensures SpecU(bits, Uleb(n) + post) == Some((n, |Uleb(n)|))
    decreases n
  {
    if n >= 128 {
      Pow2Drop7(7);
      if bits <= 7 { Pow2Mono(bits, 7); }
      Pow2Drop7(bits);
      UnsignedMeetsSpec(bits - 7, n / 128, post);
      assert (Uleb(n) + post)[1..] == Uleb(n / 128) + post;
    }
  }

  lemma HighBits(n: int, p: int)
    requires -(128 * p) <= n < 128 * p
    ensures -p <= n / 128 < p
    ensures n == 128 * (n / 128) + n % 128
  {
  }

  lemma {:induction false} SignedMeetsSpec(bits: nat, n: int, post: seq<Byte>)
    requires bits >= 1 && -Pow2(bits - 1) <= n < Pow2(bits - 1)
    ensures SpecS(bits, Sleb(n) + post) == Some((n, |Sleb(n)|))
    decreases if n < 0 then -n else n
  {
    var all := Sleb(n) + post;
    if -64 <= n < 64 {
      assert all[0] == n % 128;
    } else {
      Pow2Drop7(7);
      assert Pow2(7) == 2 * Pow2(6);
      if bits <= 7 { Pow2Mono(bits - 1, 6); }
      Pow2Drop7(bits - 1);
      HighBits(n, Pow2(bits - 8));
      SignedMeetsSpec(bits - 7, n / 128, post);
      assert all[1..] == Sleb(n / 128) + post;
      assert all[0] == n % 128 + 128;
    }
  }

  /** Nothing the grammar reads as `v` is shorter than our encoding of `v`. */
  lemma {:induction false} UnsignedIsMinimal(bits: nat, bs: seq<Byte>)
    requires SpecU(bits, bs).Some?
    ensures SpecU(bits, bs).value.0 >= 0
    ensures |Uleb(SpecU(bits, bs).value.0)| <= SpecU(bits, bs).value.1
    decreases |bs|
  {
    if bs[0] >= 128 {
      UnsignedIsMinimal(bits - 7, bs[1..]);
      var m := SpecU(bits - 7, bs[1..]).value.0;
      var v := 128 * m + (bs[0] - 128);
      assert v / 128 == m;
    }
  }

  lemma {:induction false} SignedIsMinimal(bits: nat, bs: seq<Byte>)
    requires bits >= 1 && SpecS(bits, bs).Some?
    ensures |Sleb(SpecS(bits, bs).value.0)| <= SpecS(bits, bs).value.1
    decreases |bs|
  {
    if bs[0] >= 128 {
      SignedIsMinimal(bits - 7, bs[1..]);
      var m := SpecS(bits - 7, bs[1..]).value.0;
      var v := 128 * m + (bs[0] - 128);
      assert v / 128 == m;
    }
  }

  lemma {:induction false} LengthBound(bits: nat, bs: seq<Byte>)
    requires SpecU(bits, bs).Some?
    ensures 7 * (SpecU(bits, bs).value.1 - 1) < bits || bits == 0
    decreases |bs|
  {
    if bs[0] >= 128 { LengthBound(bits - 7, bs[1..]); }
  }

  lemma {:induction false} SignedLengthBound(bits: nat, bs: seq<Byte>)
    requires bits >= 1 && SpecS(bits, bs).Some?
    ensures 7 * (SpecS(bits, bs).value.1 - 1) < bits
    decreases |bs|
  {
    if bs[0] >= 128 { SignedLengthBound(bits - 7, bs[1..]); }
  }

  /** A 32-bit number takes at most five bytes, signed or unsigned. */
  lemma FiveBytesAtMost(u: nat, s: int)
    requires u < Pow2(32) && -Pow2(31) <= s < Pow2(31)
    ensures |Uleb(u)| <= 5 && |Sleb(s)| <= 5
  {
    UnsignedMeetsSpec(32, u, []);
    LengthBound(32, Uleb(u) + []);
    SignedMeetsSpec(32, s, []);
    SignedLengthBound(32, Sleb(s) + []);
  }
}
