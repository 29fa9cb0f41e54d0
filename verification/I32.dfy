/** 32-bit integers: the signed reading the language uses, and the unsigned
    residues a Wasm `i32` holds (section 4.3.2 of WebAssembly Core 1.0). */
module I32 {
  import opened Powers

  const MODULUS := 0x1_0000_0000
  const HALF := 0x8000_0000

  type Int32 = n: int | -0x8000_0000 <= n < 0x8000_0000
  type Word = u: int | 0 <= u < 0x1_0000_0000

  function ToWord(n: int): Word { n % MODULUS }

  function Signed(u: Word): Int32 { if u < HALF then u else u - MODULUS }

  /** Two's-complement wrap-around. */
  function Wrap(n: int): Int32 { Signed(n % MODULUS) }

  function OfBool(b: bool): Word { if b then 1 else 0 }

  /** Division truncates toward zero; the remainder takes the dividend's sign. */
  function TruncDiv(a: int, b: int): int
    requires b != 0
  {
    if a >= 0 then a / b else -((-a) / b)
  }

  function TruncRem(a: int, b: int): int
    requires b != 0
  {
    a - b * TruncDiv(a, b)
  }

  datatype BitOp = AndBit | OrBit | XorBit

  function OnBits(op: BitOp, x: bool, y: bool): bool {
    match op
    case AndBit => x && y
    case OrBit => x || y
    case XorBit => x != y
  }

  /** The operator applied to each of the low `k` bits. */
  function Bitwise(op: BitOp, k: nat, a: nat, b: nat): (r: nat)
    ensures r < Pow2(k)
  {
    if k == 0 then 0
    else OfBool(OnBits(op, a % 2 == 1, b % 2 == 1)) + 2 * Bitwise(op, k - 1, a / 2, b / 2)
  }

  lemma WordWidth()
    ensures Pow2(32) == MODULUS
  {
    assert Pow2(4) == 16;
    Pow2Drop7(32);
    Pow2Drop7(25);
    Pow2Drop7(18);
    Pow2Drop7(11);
  }

  function BitwiseWord(op: BitOp, a: Word, b: Word): Word {
    WordWidth();
    Bitwise(op, 32, a, b)
  }

  lemma {:induction false} BitwiseZero(op: BitOp, k: nat)
    ensures Bitwise(op, k, 0, 0) == 0
  {
    if k > 0 { BitwiseZero(op, k - 1); }
  }

  lemma WrapKeepsWord(n: int)
    ensures ToWord(Wrap(n)) == ToWord(n)
  {
  }

  lemma SignedOfWord(n: Int32)
    ensures Signed(ToWord(n)) == n
  {
  }

  lemma ModAdd(a: int, b: int)
    ensures ToWord(ToWord(a) + ToWord(b)) == ToWord(a + b)
  {
  }

  lemma ModSub(a: int, b: int)
    ensures ToWord(ToWord(a) - ToWord(b)) == ToWord(a - b)
  {
  }

  lemma ModMul(a: int, b: int)
    ensures ToWord(ToWord(a) * ToWord(b)) == ToWord(a * b)
  {
    var qa, ra := a / MODULUS, a % MODULUS;
    var qb, rb := b / MODULUS, b % MODULUS;
    assert a == MODULUS * qa + ra && b == MODULUS * qb + rb;
    var k := MODULUS * qa * qb + qa * rb + ra * qb;
    assert a * b == ra * rb + MODULUS * k by {
      assert (MODULUS * qa + ra) * (MODULUS * qb + rb) == MODULUS * k + ra * rb;
    }
    AddMultiple(ra * rb, k);
  }

  lemma AddMultiple(x: int, k: int)
    ensures (x + MODULUS * k) % MODULUS == x % MODULUS
  {
  }

  lemma BoolBits(op: BitOp, p: bool, q: bool)
    ensures BitwiseWord(op, OfBool(p), OfBool(q)) == OfBool(OnBits(op, p, q))
  {
    BitwiseZero(op, 31);
    var a, b: nat := OfBool(p), OfBool(q);
    assert a / 2 == 0 && b / 2 == 0;
    assert Bitwise(op, 32, a, b) == OfBool(OnBits(op, a % 2 == 1, b % 2 == 1)) + 2 * Bitwise(op, 31, 0, 0);
  }
}
