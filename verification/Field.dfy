/** The checksum as BIP-173 defines it: the remainder of a polynomial over GF(32) by a generator of degree
    six. A state is six field elements, highest power first. */
module Field {
  import opened Words
  import opened Digits
  import opened Checksum

  // ----- GF(32), as polynomials over two elements modulo a^5 + a^3 + 1 -----

  /** Multiplication by `a`. */
  function Double(v: nat): (r: nat)
    requires v < 32
    ensures r < 32
  {
    if v < 16 then 2 * v else Folded(v)
  }

  function Folded(v: nat): (r: nat)
    requires 16 <= v < 32
    ensures r < 32
  {
    Pow2Six();
    XorBound(2 * v, 41, 6);
    FoldsDown(v);
    Xor(2 * v, 41)
  }

  lemma Pow2Six()
    ensures Pow2(5) == 32 && Pow2(6) == 64
  {
    assert Pow2(3) == 8;
  }

  /** The leading terms cancel. */
  lemma FoldsDown(v: nat)
    requires 16 <= v < 32
    ensures Xor(2 * v, 41) < 32
  {
    Pow2Six();
    XorBound(2 * v, 41, 6);
    var x := Xor(2 * v, 41);
    BitXor(2 * v, 41, 5);
    TopOf(2 * v);
    TopOf(41);
    TopOf(x);
  }

  lemma TopOf(x: nat)
    requires x < 64
    ensures Bit(x, 5) <==> x >= 32
  {
    assert Bit(x, 5) == Bit(x / 2, 4) == Bit(x / 2 / 2, 3) == Bit(x / 2 / 2 / 2, 2);
    assert Bit(x / 2 / 2 / 2, 2) == Bit(x / 2 / 2 / 2 / 2, 1) == Bit(x / 2 / 2 / 2 / 2 / 2, 0);
  }

  function TimesPower(v: nat, n: nat): (r: nat)
    requires v < 32
    ensures r < 32
  {
    if n == 0 then v else Double(TimesPower(v, n - 1))
  }

  /** The sum, over the first `n` powers of `a` in `u`, of that power times `v`. */
  function Product(u: nat, v: nat, n: nat): (r: nat)
    requires v < 32
    ensures r < 32
  {
    if n == 0 then 0
    else
      Pow2Six();
      XorBound(Product(u, v, n - 1), TimesPower(v, n - 1), 5);
      if Bit(u, n - 1) then Xor(Product(u, v, n - 1), TimesPower(v, n - 1)) else Product(u, v, n - 1)
  }

  function Mul(u: nat, v: nat): (r: nat)
    requires u < 32 && v < 32
    ensures r < 32
  {
    Product(u, v, |GEN|)
  }

  // ----- the remainder -----

  /** x^6 modulo the generator: the generator is x^6 + 29x^5 + 22x^4 + 20x^3 + 21x^2 + 29x + 18. */
  const GENERATOR: seq<nat> := [29, 22, 20, 21, 29, 18]

  function Add(u: nat, v: nat): (r: nat)
    requires u < 32 && v < 32
    ensures r < 32
  {
    Pow2Six();
    XorBound(u, v, 5);
    Xor(u, v)
  }

  predicate State(s: seq<nat>) {
    |s| == 6 && Below(s, Five)
  }

  /** The state times x plus `v`, reduced by the generator. */
  function Shifted(s: seq<nat>, v: nat): (t: seq<nat>)
    requires State(s) && v < 32
    ensures State(t)
  {
    var next := s[1..] + [v];
    seq(6, i requires 0 <= i < 6 => Add(next[i], Mul(s[0], GENERATOR[i])))
  }

  /** The polynomial whose coefficients are `s` and then `values`, modulo the generator. */
  function Remainder(s: seq<nat>, values: seq<nat>): (t: seq<nat>)
    requires State(s) && Below(values, Five)
    ensures State(t)
  {
    if values == [] then s else Shifted(Remainder(s, values[..|values| - 1]), values[|values| - 1])
  }

  // ----- the generators are the field's -----

  /** The six elements of generator `j`: a^j times those of x^6. */
  function Generator(j: nat): (g: seq<nat>)
    ensures State(g)
  {
    seq(6, i requires 0 <= i < 6 => TimesPower(GENERATOR[i], j))
  }

  lemma {:induction false} NumSix(a: nat, b: nat, c: nat, d: nat, e: nat, f: nat)
    ensures Num([a, b, c, d, e, f], Five) == 32 * (32 * (32 * (32 * (32 * a + b) + c) + d) + e) + f
  {
    var s := [a, b, c, d, e, f];
    assert s[..5] == [a, b, c, d, e];
    assert s[..5][..4] == [a, b, c, d];
    assert s[..5][..4][..3] == [a, b, c];
    assert [a, b, c][..2] == [a, b];
    assert [a, b][..1] == [a];
    assert Num([a], Five) == 32 * Num([], Five) + a;
    assert Num([a, b], Five) == 32 * Num([a], Five) + b;
    assert Num([a, b, c], Five) == 32 * Num([a, b], Five) + c;
    assert Num([a, b, c, d], Five) == 32 * Num([a, b, c], Five) + d;
    assert Num([a, b, c, d, e], Five) == 32 * Num([a, b, c, d], Five) + e;
  }

  lemma Doubles()
    ensures Double(1) == 2
    ensures Double(2) == 4
    ensures Double(3) == 6
    ensures Double(4) == 8
    ensures Double(5) == 10
    ensures Double(6) == 12
    ensures Double(10) == 20
    ensures Double(12) == 24
    ensures Double(13) == 26
    ensures Double(15) == 30
    ensures Double(18) == 13
    ensures Double(19) == 15
    ensures Double(20) == 1
    ensures Double(21) == 3
    ensures Double(22) == 5
    ensures Double(26) == 29
    ensures Double(29) == 19
    ensures Double(30) == 21
  {
  }

  lemma {:induction false} Generator1()
    ensures Generator(1) == [19, 5, 1, 3, 19, 13]
  {
    Doubles();
    assert forall i | 0 <= i < 6 :: TimesPower(GENERATOR[i], 0) == GENERATOR[i];
    assert forall i | 0 <= i < 6 :: TimesPower(GENERATOR[i], 1) == Double(TimesPower(GENERATOR[i], 0));
  }

  lemma {:induction false} Generator2()
    ensures Generator(2) == [15, 10, 2, 6, 15, 26]
  {
    Doubles();
    Generator1();
    assert forall i | 0 <= i < 6 :: Generator(1)[i] == TimesPower(GENERATOR[i], 1);
    assert forall i | 0 <= i < 6 :: TimesPower(GENERATOR[i], 2) == Double(TimesPower(GENERATOR[i], 1));
  }

  lemma {:induction false} Generator3()
    ensures Generator(3) == [30, 20, 4, 12, 30, 29]
  {
    Doubles();
    Generator2();
    assert forall i | 0 <= i < 6 :: Generator(2)[i] == TimesPower(GENERATOR[i], 2);
    assert forall i | 0 <= i < 6 :: TimesPower(GENERATOR[i], 3) == Double(TimesPower(GENERATOR[i], 2));
  }

  lemma {:induction false} Generator4()
    ensures Generator(4) == [21, 1, 8, 24, 21, 19]
  {
    Doubles();
    Generator3();
    assert forall i | 0 <= i < 6 :: Generator(3)[i] == TimesPower(GENERATOR[i], 3);
    assert forall i | 0 <= i < 6 :: TimesPower(GENERATOR[i], 4) == Double(TimesPower(GENERATOR[i], 3));
  }

  /** Each 30-bit constant of the code packs the six elements of its generator. */
  lemma {:induction false} GeneratorsPacked(j: nat)
    requires j < 5
    ensures GEN[j] == Num(Generator(j), Five)
  {
    if j == 0 {
      assert Generator(0) == [29, 22, 20, 21, 29, 18];
      NumSix(29, 22, 20, 21, 29, 18);
    } else if j == 1 {
      Generator1();
      NumSix(19, 5, 1, 3, 19, 13);
    } else if j == 2 {
      Generator2();
      NumSix(15, 10, 2, 6, 15, 26);
    } else if j == 3 {
      Generator3();
      NumSix(30, 20, 4, 12, 30, 29);
    } else if j == 4 {
      Generator4();
      NumSix(21, 1, 8, 24, 21, 19);
    }
  }

  // ----- the step is the shift -----

  lemma {:induction false} BitAppend(x: nat, d: nat, n: nat, k: nat)
    requires d < Pow2(n)
    ensures Bit(Pow2(n) * x + d, k) == if k < n then Bit(d, k) else Bit(x, k - n)
    decreases n
  {
    if n > 0 {
      var y := Pow2(n - 1) * x;
      assert Pow2(n) * x == 2 * y;
      assert (2 * y + d) / 2 == y + d / 2 && (2 * y + d) % 2 == d % 2;
      if k > 0 { BitAppend(x, d / 2, n - 1, k - 1); }
    }
  }

  /** Digit by digit, the bits of a number in base 32. */
  lemma {:induction false} BitOfNum(ds: seq<nat>, k: nat)
    requires Below(ds, Five)
    ensures Bit(Num(ds, Five), k) == (k < 5 * |ds| && Bit(ds[|ds| - 1 - k / 5], k % 5))
    decreases |ds|
  {
    if ds == [] {
      BitOfZero(k);
    } else {
      var init, d := ds[..|ds| - 1], ds[|ds| - 1];
      Pow2Six();
      BitAppend(Num(init, Five), d, 5, k);
      if k >= 5 {
        BitOfNum(init, k - 5);
        assert (k - 5) / 5 == k / 5 - 1 && (k - 5) % 5 == k % 5;
      } else {
        assert k / 5 == 0 && k % 5 == k;
      }
    }
  }

  /** Parity of the products' bit `m`, in the shape the feedback has. */
  predicate Dot(u: nat, v: nat, m: nat, n: nat)
    requires v < 32
  {
    n > 0 && Dot(u, v, m, n - 1) != (Bit(u, n - 1) && Bit(TimesPower(v, n - 1), m))
  }

  lemma {:induction false} ProductBit(u: nat, v: nat, m: nat, n: nat)
    requires v < 32
    ensures Bit(Product(u, v, n), m) == Dot(u, v, m, n)
  {
    if n == 0 {
      BitOfZero(m);
    } else {
      ProductBit(u, v, m, n - 1);
      BitXor(Product(u, v, n - 1), TimesPower(v, n - 1), m);
    }
  }

  lemma {:induction false} GeneratorBit(j: nat, k: nat)
    requires j < 5
    ensures Bit(GEN[j], k) == (k < 30 && Bit(TimesPower(GENERATOR[5 - k / 5], j), k % 5))
  {
    GeneratorsPacked(j);
    BitOfNum(Generator(j), k);
  }

  /** The feedback for the leading element is its product with the generator. */
  lemma {:induction false} ParityIsDot(s: seq<nat>, k: nat, n: nat)
    requires State(s) && k < 30 && n <= 5
    ensures Parity(Num(s, Five), k, n) == Dot(s[0], GENERATOR[5 - k / 5], k % 5, n)
  {
    if n > 0 {
      ParityIsDot(s, k, n - 1);
      GeneratorBit(n - 1, k);
      BitOfNum(s, 24 + n);
      assert (24 + n) / 5 == 5 && (24 + n) % 5 == n - 1;
    }
  }

  lemma {:induction false} NoParity(chk: nat, k: nat, n: nat)
    requires k >= 30 && n <= 5
    ensures !Parity(chk, k, n)
  {
    if n > 0 {
      NoParity(chk, k, n - 1);
      GeneratorBit(n - 1, k);
    }
  }

  /** What comes into place `k` from below. */
  lemma {:induction false} NextBit(s: seq<nat>, v: nat, k: nat)
    requires State(s) && v < 32 && k < 30
    ensures Bit((s[1..] + [v])[5 - k / 5], k % 5) == ((5 <= k < 30 && Bit(Num(s, Five), k - 5)) != Bit(v, k))
  {
    Pow2Six();
    if k >= 5 {
      NoHighBits(v, 5, k);
      BitOfNum(s, k - 5);
      assert (k - 5) / 5 == k / 5 - 1 && (k - 5) % 5 == k % 5;
    }
  }

  /** What the feedback adds there. */
  lemma {:induction false} FedBackBit(s: seq<nat>, k: nat)
    requires State(s) && k < 30
    ensures Bit(Mul(s[0], GENERATOR[5 - k / 5]), k % 5) == Parity(Num(s, Five), k, 5)
  {
    ProductBit(s[0], GENERATOR[5 - k / 5], k % 5, |GEN|);
    ParityIsDot(s, k, 5);
  }

  lemma {:induction false} ShiftedBit(s: seq<nat>, v: nat, k: nat)
    requires State(s) && v < 32
    ensures Bit(Step(Num(s, Five), v), k) == Bit(Num(Shifted(s, v), Five), k)
  {
    StepBit(Num(s, Five), v, k);
    BitOfNum(Shifted(s, v), k);
    if k >= 30 {
      Pow2Six();
      NoHighBits(v, 5, k);
      NoParity(Num(s, Five), k, 5);
    } else {
      var i := 5 - k / 5;
      NextBit(s, v, k);
      FedBackBit(s, k);
      BitXor((s[1..] + [v])[i], Mul(s[0], GENERATOR[i]), k % 5);
    }
  }

  /** One checksum step, on the packed state, is multiplication by x and reduction by BIP-173's generator. */
  lemma {:induction false} StepIsShift(s: seq<nat>, v: nat)
    requires State(s) && v < 32
    ensures Step(Num(s, Five), v) == Num(Shifted(s, v), Five)
  {
    forall k: nat ensures Bit(Step(Num(s, Five), v), k) == Bit(Num(Shifted(s, v), Five), k) { ShiftedBit(s, v, k); }
    SameBits(Step(Num(s, Five), v), Num(Shifted(s, v), Five));
  }

  /** So the checksum of a string of values is the remainder of the polynomial they spell. */
  lemma {:induction false} PolyIsRemainder(s: seq<nat>, values: seq<nat>)
    requires State(s) && Below(values, Five)
    ensures Poly(Num(s, Five), values) == Num(Remainder(s, values), Five)
    decreases |values|
  {
    if values != [] {
      var init := values[..|values| - 1];
      PolyIsRemainder(s, init);
      StepIsShift(Remainder(s, init), values[|values| - 1]);
    }
  }

  // ----- octets -----

  /** Octet by octet, the bits of a number in base 256. */
  lemma {:induction false} BitOfOctets(ds: seq<nat>, k: nat)
    requires Below(ds, Eight)
    ensures Bit(Num(ds, Eight), k) == (k < 8 * |ds| && Bit(ds[|ds| - 1 - k / 8], k % 8))
    decreases |ds|
  {
    if ds == [] {
      BitOfZero(k);
    } else {
      var init, d := ds[..|ds| - 1], ds[|ds| - 1];
      Pow2Plus8(0);
      BitAppend(Num(init, Eight), d, 8, k);
      if k >= 8 {
        BitOfOctets(init, k - 8);
        assert (k - 8) / 8 == k / 8 - 1 && (k - 8) % 8 == k % 8;
      } else {
        assert k / 8 == 0 && k % 8 == k;
      }
    }
  }
}
