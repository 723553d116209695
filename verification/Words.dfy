/** Fixed-width unsigned integers and their bitwise operators.

    A machine word is its numeric value. The bitwise operators are defined on
    binary digits, least significant first; a shift by `n` is `n` doublings
    (dropping what leaves the word) or `n` halvings. */
module Words {

  type byte = x: int | 0 <= x < 0x100
  type u16 = x: int | 0 <= x < 0x1_0000
  type u32 = x: int | 0 <= x < 0x1_0000_0000
  type u64 = x: int | 0 <= x < 0x1_0000_0000_0000_0000

  const U64_MAX: u64 := 0xFFFF_FFFF_FFFF_FFFF

  predicate Bit(w: nat, k: nat) {
    if k == 0 then w % 2 == 1 else Bit(w / 2, k - 1)
  }

  function Or(a: nat, b: nat): nat
    decreases a + b
  {
    if a == 0 && b == 0 then 0
    else (if a % 2 == 1 || b % 2 == 1 then 1 else 0) + 2 * Or(a / 2, b / 2)
  }

  function And(a: nat, b: nat): nat
    decreases a + b
  {
    if a == 0 && b == 0 then 0
    else (if a % 2 == 1 && b % 2 == 1 then 1 else 0) + 2 * And(a / 2, b / 2)
  }

  function Xor(a: nat, b: nat): nat
    decreases a + b
  {
    if a == 0 && b == 0 then 0
    else (if a % 2 != b % 2 then 1 else 0) + 2 * Xor(a / 2, b / 2)
  }

  function Shr(w: nat, n: nat): nat
    decreases n
  {
    if n == 0 then w else Shr(w / 2, n - 1)
  }

  /** `w << n` on 64-bit words. */
  function Shl64(w: u64, n: nat): u64
    decreases n
  {
    if n == 0 then w else Shl64(2 * w % 0x1_0000_0000_0000_0000, n - 1)
  }

  function Pow2(n: nat): (p: nat)
    ensures p > 0
  {
    if n == 0 then 1 else 2 * Pow2(n - 1)
  }

  lemma Pow2Plus8(n: nat)
    ensures Pow2(n + 8) == 256 * Pow2(n)
  {
    assert Pow2(n + 1) == 2 * Pow2(n);
    assert Pow2(n + 2) == 2 * Pow2(n + 1);
    assert Pow2(n + 3) == 2 * Pow2(n + 2);
    assert Pow2(n + 4) == 2 * Pow2(n + 3);
    assert Pow2(n + 5) == 2 * Pow2(n + 4);
    assert Pow2(n + 6) == 2 * Pow2(n + 5);
    assert Pow2(n + 7) == 2 * Pow2(n + 6);
  }

  lemma Pow2Width()
    ensures Pow2(63) == 0x8000_0000_0000_0000 && Pow2(64) == 0x1_0000_0000_0000_0000
  {
    Pow2Half();
    Pow2Plus8(32); Pow2Plus8(40); Pow2Plus8(48); Pow2Plus8(56);
    assert Pow2(64) == 2 * Pow2(63);
  }

  lemma Pow2Half()
    ensures Pow2(32) == 0x1_0000_0000
  {
    Pow2Plus8(0); Pow2Plus8(8); Pow2Plus8(16); Pow2Plus8(24);
  }

  // ----- single bits -----

  lemma {:induction false} BitOfZero(k: nat)
    ensures !Bit(0, k)
  {
    if k > 0 { BitOfZero(k - 1); }
  }

  lemma BitOfOne(k: nat)
    ensures Bit(1, k) == (k == 0)
  {
    if k > 0 { BitOfZero(k - 1); }
  }

  lemma OrHalves(a: nat, b: nat)
    ensures Or(a, b) / 2 == Or(a / 2, b / 2)
    ensures Or(a, b) % 2 == 1 <==> a % 2 == 1 || b % 2 == 1
  {
  }

  lemma {:induction false} BitOr(a: nat, b: nat, k: nat)
    ensures Bit(Or(a, b), k) == (Bit(a, k) || Bit(b, k))
    decreases k
  {
    OrHalves(a, b);
    if k > 0 { BitOr(a / 2, b / 2, k - 1); }
  }

  lemma AndHalves(a: nat, b: nat)
    ensures And(a, b) / 2 == And(a / 2, b / 2)
    ensures And(a, b) % 2 == 1 <==> a % 2 == 1 && b % 2 == 1
  {
  }

  lemma {:induction false} BitAnd(a: nat, b: nat, k: nat)
    ensures Bit(And(a, b), k) == (Bit(a, k) && Bit(b, k))
    decreases k
  {
    AndHalves(a, b);
    if k > 0 { BitAnd(a / 2, b / 2, k - 1); }
  }

  lemma {:induction false} BitShr(w: nat, n: nat, k: nat)
    ensures Bit(Shr(w, n), k) == Bit(w, k + n)
    decreases n
  {
    if n > 0 { BitShr(w / 2, n - 1, k); }
  }

  lemma {:induction false} NoHighBits(w: nat, n: nat, k: nat)
    requires w < Pow2(n) && n <= k
    ensures !Bit(w, k)
    decreases n
  {
    if n == 0 { BitOfZero(k); } else { NoHighBits(w / 2, n - 1, k - 1); }
  }

  lemma AddEven(w: nat, p: nat)
    ensures (w + 2 * p) / 2 == w / 2 + p && (w + 2 * p) % 2 == w % 2
  {
  }

  lemma {:induction false} BitAddPow2(w: nat, n: nat, k: nat)
    requires k < n
    ensures Bit(w + Pow2(n), k) == Bit(w, k)
    decreases k
  {
    AddEven(w, Pow2(n - 1));
    if k > 0 { BitAddPow2(w / 2, n - 1, k - 1); }
  }

  lemma BitDouble(w: u64, k: nat)
    requires k < 64
    ensures Bit(2 * w % 0x1_0000_0000_0000_0000, k) == (k > 0 && Bit(w, k - 1))
  {
    var d := 2 * w % 0x1_0000_0000_0000_0000;
    if k > 0 {
      assert Bit(d, k) == Bit(d / 2, k - 1);
      if w >= 0x8000_0000_0000_0000 {
        assert d / 2 == w - 0x8000_0000_0000_0000;
        Pow2Width();
        BitAddPow2(d / 2, 63, k - 1);
      } else {
        assert d / 2 == w;
      }
    }
  }

  lemma {:induction false} BitShl(w: u64, n: nat, k: nat)
    requires k < 64
    ensures Bit(Shl64(w, n), k) == (n <= k && Bit(w, k - n))
    decreases n
  {
    if n > 0 {
      BitShl(2 * w % 0x1_0000_0000_0000_0000, n - 1, k);
      if n - 1 <= k { BitDouble(w, k - (n - 1)); }
    }
  }

  /** A number none of whose bits is set is zero. */
  lemma {:induction false} NoBits(w: nat)
    requires forall k: nat :: !Bit(w, k)
    ensures w == 0
  {
    if w > 0 {
      assert !Bit(w, 0);
      forall k: nat ensures !Bit(w / 2, k) { assert !Bit(w, k + 1); }
      NoBits(w / 2);
    }
  }

  // ----- the source's bit test, bit set and cross-word shift -----

  lemma BitMask(i: nat, k: nat)
    requires i < 64
    ensures Bit(Shl64(1, i), k) == (k == i)
  {
    if k < 64 {
      BitShl(1, i, k);
      if i <= k { BitOfOne(k - i); }
    } else {
      Pow2Width();
      NoHighBits(Shl64(1, i), 64, k);
    }
  }

  lemma MaskTest(w: u64, i: nat)
    requires i < 64
    ensures (And(w, Shl64(1, i)) == 0) == !Bit(w, i)
  {
    var m := And(w, Shl64(1, i));
    forall k: nat
      ensures Bit(m, k) == (k == i && Bit(w, k))
    {
      BitAnd(w, Shl64(1, i), k);
      BitMask(i, k);
    }
    if Bit(w, i) { BitOfZero(i); } else { NoBits(m); }
  }

  lemma MaskSet(w: u64, i: nat, k: nat)
    requires i < 64
    ensures Bit(Or(w, Shl64(1, i)), k) == (k == i || Bit(w, k))
  {
    BitOr(w, Shl64(1, i), k);
    BitMask(i, k);
  }

  /** One word of a left shift by `s` across words; `lo` is the word below `hi`. */
  lemma CarryBit(hi: u64, lo: u64, s: nat, k: nat)
    requires 0 < s < 64 && k < 64
    ensures Bit(Or(Shl64(hi, s), Shr(lo, 64 - s)), k) == if s <= k then Bit(hi, k - s) else Bit(lo, 64 - s + k)
  {
    BitOr(Shl64(hi, s), Shr(lo, 64 - s), k);
    BitShl(hi, s, k);
    BitShr(lo, 64 - s, k);
    if s <= k {
      Pow2Width();
      NoHighBits(lo, 64, k + (64 - s));
    }
  }

  lemma {:induction false} OrBound(a: nat, b: nat, n: nat)
    requires a < Pow2(n) && b < Pow2(n)
    ensures Or(a, b) < Pow2(n)
    decreases n
  {
    if n > 0 { OrBound(a / 2, b / 2, n - 1); }
  }

  /** `a | b` on 64-bit words. */
  function Or64(a: u64, b: u64): u64 {
    Pow2Width();
    OrBound(a, b, 64);
    Or(a, b)
  }

  lemma {:induction false} ShrZero(n: nat)
    ensures Shr(0, n) == 0
  {
    if n > 0 { ShrZero(n - 1); }
  }

  lemma {:induction false} ShrBound(w: nat, n: nat)
    ensures Shr(w, n) <= w
    decreases n
  {
    if n > 0 { ShrBound(w / 2, n - 1); }
  }

  /** `w >> n` on 64-bit words. */
  function Shr64(w: u64, n: nat): u64 {
    ShrBound(w, n);
    Shr(w, n)
  }

  // ----- exclusive or, masks and truncation -----

  lemma XorHalves(a: nat, b: nat)
    ensures Xor(a, b) / 2 == Xor(a / 2, b / 2)
    ensures Xor(a, b) % 2 == 1 <==> a % 2 != b % 2
  {
  }

  lemma {:induction false} BitXor(a: nat, b: nat, k: nat)
    ensures Bit(Xor(a, b), k) == (Bit(a, k) != Bit(b, k))
    decreases k
  {
    XorHalves(a, b);
    if k > 0 { BitXor(a / 2, b / 2, k - 1); }
  }

  /** Numbers with the same bits are equal. */
  lemma {:induction false} SameBits(a: nat, b: nat)
    requires forall k: nat :: Bit(a, k) == Bit(b, k)
    ensures a == b
    decreases a + b
  {
    assert Bit(a, 0) == Bit(b, 0);
    if a > 0 || b > 0 {
      forall k: nat ensures Bit(a / 2, k) == Bit(b / 2, k) { assert Bit(a, k + 1) == Bit(b, k + 1); }
      SameBits(a / 2, b / 2);
    }
  }

  lemma {:induction false} XorSelf(a: nat)
    ensures Xor(a, a) == 0
  {
    if a > 0 { XorSelf(a / 2); }
  }

  lemma {:induction false} XorZero(a: nat)
    ensures Xor(a, 0) == a && Xor(0, a) == a
  {
    if a > 0 { XorZero(a / 2); }
  }

  lemma {:induction false} XorComm(a: nat, b: nat)
    ensures Xor(a, b) == Xor(b, a)
    decreases a + b
  {
    if a > 0 || b > 0 { XorComm(a / 2, b / 2); }
  }

  /** Exclusive or is its own inverse. */
  lemma {:induction false} XorCancel(a: nat, b: nat)
    ensures Xor(Xor(a, b), b) == a
    decreases a + b
  {
    if a > 0 || b > 0 { XorCancel(a / 2, b / 2); }
  }

  lemma {:induction false} XorBound(a: nat, b: nat, n: nat)
    requires a < Pow2(n) && b < Pow2(n)
    ensures Xor(a, b) < Pow2(n)
    decreases n
  {
    if n > 0 { XorBound(a / 2, b / 2, n - 1); }
  }

  lemma {:induction false} HalfSplit(w: nat, p: nat)
    requires p > 0
    ensures w / 2 == p * (w / (2 * p)) + w % (2 * p) / 2
    ensures w % 2 == w % (2 * p) % 2 && w % (2 * p) / 2 < p
  {
    var q, r := w / (2 * p), w % (2 * p);
    DivSplit(w, 2 * p);
    assert 2 * p * q == 2 * (p * q);
  }

  lemma {:induction false} ModHalf(w: nat, p: nat)
    requires p > 0
    ensures (w % (2 * p)) / 2 == (w / 2) % p && (w % (2 * p)) % 2 == w % 2
  {
    HalfSplit(w, p);
    ModOf(p, w / (2 * p), w % (2 * p) / 2);
  }

  lemma {:induction false} MulAtLeast(p: nat, d: nat)
    requires d >= 1
    ensures p * d >= p
  {
    assert p * d == p + p * (d - 1);
  }

  lemma {:induction false} DivUnique(p: nat, q1: nat, r1: nat, q2: nat, r2: nat)
    requires r1 < p && r2 < p && p * q1 + r1 == p * q2 + r2
    ensures q1 == q2 && r1 == r2
  {
    if q1 < q2 {
      MulAtLeast(p, q2 - q1);
    } else if q2 < q1 {
      MulAtLeast(p, q1 - q2);
    }
  }

  lemma DivSplit(w: nat, p: nat)
    requires p > 0
    ensures w == p * (w / p) + w % p && w % p < p && w / p >= 0
  {
  }

  lemma {:induction false} ModOf(p: nat, q: nat, r: nat)
    requires r < p
    ensures (p * q + r) % p == r && (p * q + r) / p == q
  {
    var w := p * q + r;
    DivSplit(w, p);
    DivUnique(p, q, r, w / p, w % p);
  }

  lemma {:induction false} BitMod(w: nat, n: nat, k: nat)
    ensures Bit(w % Pow2(n), k) == (k < n && Bit(w, k))
    decreases k
  {
    if n == 0 {
      BitOfZero(k);
    } else {
      ModHalf(w, Pow2(n - 1));
      if k > 0 { BitMod(w / 2, n - 1, k - 1); }
    }
  }

  lemma BitTimes32(w: nat, k: nat)
    ensures Bit(32 * w, k) == (k >= 5 && Bit(w, k - 5))
  {
    assert 32 * w / 2 == 16 * w && 16 * w / 2 == 8 * w && 8 * w / 2 == 4 * w && 4 * w / 2 == 2 * w && 2 * w / 2 == w;
    if k >= 1 { assert Bit(32 * w, k) == Bit(16 * w, k - 1); }
    if k >= 2 { assert Bit(16 * w, k - 1) == Bit(8 * w, k - 2); }
    if k >= 3 { assert Bit(8 * w, k - 2) == Bit(4 * w, k - 3); }
    if k >= 4 { assert Bit(4 * w, k - 3) == Bit(2 * w, k - 4); }
  }

  /** Masking with `2^n - 1` keeps the low `n` bits. */
  lemma {:induction false} AndMask(w: nat, n: nat)
    ensures And(w, Pow2(n) - 1) == w % Pow2(n)
    decreases n
  {
    if n == 0 {
      AndZero(w);
    } else {
      ModHalf(w, Pow2(n - 1));
      AndMask(w / 2, n - 1);
      assert (Pow2(n) - 1) / 2 == Pow2(n - 1) - 1;
    }
  }

  lemma {:induction false} AndZero(w: nat)
    ensures And(w, 0) == 0
  {
    if w > 0 { AndZero(w / 2); }
  }

  /** Or-ing into cleared low bits is addition. */
  lemma {:induction false} OrDisjoint(a: nat, b: nat, n: nat)
    requires a % Pow2(n) == 0 && b < Pow2(n)
    ensures Or(a, b) == a + b
    decreases n
  {
    if n == 0 {
      OrZero(a);
    } else {
      ModHalf(a, Pow2(n - 1));
      OrDisjoint(a / 2, b / 2, n - 1);
    }
  }

  lemma {:induction false} OrZero(a: nat)
    ensures Or(a, 0) == a
  {
    if a > 0 { OrZero(a / 2); }
  }

  lemma {:induction false} ShrDiv(w: nat, n: nat)
    ensures Shr(w, n) == w / Pow2(n)
    decreases n
  {
    if n > 0 {
      ShrDiv(w / 2, n - 1);
      DivHalf(w, Pow2(n - 1));
    }
  }

  lemma {:induction false} DivHalf(w: nat, p: nat)
    requires p > 0
    ensures w / 2 / p == w / (2 * p)
  {
    HalfSplit(w, p);
    ModOf(p, w / (2 * p), w % (2 * p) / 2);
  }
}
