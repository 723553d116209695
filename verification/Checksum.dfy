/** The Bech32 checksum: a linear map over 30-bit states. */
module Checksum {
  import opened Words
  import opened Digits

  const GEN: seq<nat> := [0x3b6a_57b2, 0x2650_8e6d, 0x1ea1_19fa, 0x3d42_33dd, 0x2a14_62b3]

  /** `c` with generator `i` mixed in for each of the first `n` bits of `chk >> 25` that is set. */
  function Feedback(c: nat, chk: nat, n: nat): nat
    requires n <= 5
  {
    if n == 0 then c
    else
      var rest := Feedback(c, chk, n - 1);
      if Bit(chk, 24 + n) then Xor(rest, GEN[n - 1]) else rest
  }

  function Step(chk: nat, value: nat): nat {
    Feedback(Xor(32 * (chk % 0x200_0000), value), chk, |GEN|)
  }

  function Poly(chk: nat, values: seq<nat>): nat {
    if values == [] then chk else Step(Poly(chk, values[..|values| - 1]), values[|values| - 1])
  }

  // ----- one step, bit by bit -----

  /** Parity of the generators' bit `k` over the set bits of `chk >> 25`. */
  predicate Parity(chk: nat, k: nat, n: nat)
    requires n <= 5
  {
    n > 0 && Parity(chk, k, n - 1) != (Bit(chk, 24 + n) && Bit(GEN[n - 1], k))
  }

  lemma {:induction false} FeedbackBit(c: nat, chk: nat, k: nat, n: nat)
    requires n <= 5
    ensures Bit(Feedback(c, chk, n), k) == (Bit(c, k) != Parity(chk, k, n))
  {
    if n > 0 {
      FeedbackBit(c, chk, k, n - 1);
      BitXor(Feedback(c, chk, n - 1), GEN[n - 1], k);
    }
  }

  lemma StepBit(chk: nat, v: nat, k: nat)
    ensures Bit(Step(chk, v), k) == (((5 <= k < 30 && Bit(chk, k - 5)) != Bit(v, k)) != Parity(chk, k, 5))
  {
    var low := 32 * (chk % 0x200_0000);
    FeedbackBit(Xor(low, v), chk, k, 5);
    BitXor(low, v, k);
    BitTimes32(chk % 0x200_0000, k);
    Pow2Thirty();
    if k >= 5 { BitMod(chk, 25, k - 5); }
  }

  lemma {:induction false} ParityLinear(a: nat, b: nat, k: nat, n: nat)
    requires n <= 5
    ensures Parity(Xor(a, b), k, n) == (Parity(a, k, n) != Parity(b, k, n))
  {
    if n > 0 {
      ParityLinear(a, b, k, n - 1);
      BitXor(a, b, 24 + n);
    }
  }

  lemma LinearBit(a: nat, b: nat, u: nat, v: nat, k: nat)
    ensures Bit(Step(Xor(a, b), Xor(u, v)), k) == Bit(Xor(Step(a, u), Step(b, v)), k)
  {
    StepBit(Xor(a, b), Xor(u, v), k);
    StepBit(a, u, k);
    StepBit(b, v, k);
    ParityLinear(a, b, k, 5);
    BitXor(Step(a, u), Step(b, v), k);
    BitXor(u, v, k);
    if k >= 5 { BitXor(a, b, k - 5); }
  }

  /** The checksum step is linear. */
  lemma StepLinear(a: nat, b: nat, u: nat, v: nat)
    ensures Step(Xor(a, b), Xor(u, v)) == Xor(Step(a, u), Step(b, v))
  {
    var x, y := Step(Xor(a, b), Xor(u, v)), Xor(Step(a, u), Step(b, v));
    forall k: nat ensures Bit(x, k) == Bit(y, k) { LinearBit(a, b, u, v, k); }
    SameBits(x, y);
  }

  lemma {:induction false} FeedbackBound(c: nat, chk: nat, n: nat)
    requires n <= 5 && c < Pow2(30)
    ensures Feedback(c, chk, n) < Pow2(30)
  {
    if n > 0 {
      FeedbackBound(c, chk, n - 1);
      Pow2Thirty();
      XorBound(Feedback(c, chk, n - 1), GEN[n - 1], 30);
    }
  }

  lemma Pow2Thirty()
    ensures Pow2(30) == 0x4000_0000 && Pow2(25) == 0x200_0000 && Pow2(5) == 32
  {
    Pow2Plus8(0); Pow2Plus8(8); Pow2Plus8(16); Pow2Plus8(22);
    assert Pow2(25) == 2 * Pow2(24);
    assert Pow2(24) == 4 * Pow2(22);
  }

  lemma StepBound(chk: nat, v: nat)
    requires v < 0x4000_0000
    ensures Step(chk, v) < 0x4000_0000
  {
    Pow2Thirty();
    XorBound(32 * (chk % 0x200_0000), v, 30);
    FeedbackBound(Xor(32 * (chk % 0x200_0000), v), chk, 5);
  }

  lemma GenLowBits()
    ensures !Bit(GEN[0], 0) && Bit(GEN[0], 1) && !Bit(GEN[0], 2) && !Bit(GEN[0], 3) && Bit(GEN[0], 4)
    ensures Bit(GEN[1], 0) && !Bit(GEN[1], 1) && Bit(GEN[1], 2) && Bit(GEN[1], 3) && !Bit(GEN[1], 4)
    ensures !Bit(GEN[2], 0) && Bit(GEN[2], 1) && !Bit(GEN[2], 2) && Bit(GEN[2], 3) && Bit(GEN[2], 4)
    ensures Bit(GEN[3], 0) && !Bit(GEN[3], 1) && Bit(GEN[3], 2) && Bit(GEN[3], 3) && Bit(GEN[3], 4)
    ensures Bit(GEN[4], 0) && Bit(GEN[4], 1) && !Bit(GEN[4], 2) && !Bit(GEN[4], 3) && Bit(GEN[4], 4)
  {
  }

  lemma ParityUnrolled(chk: nat, k: nat)
    ensures Parity(chk, k, 5) ==
      (((((Bit(chk, 25) && Bit(GEN[0], k)) != (Bit(chk, 26) && Bit(GEN[1], k)))
      != (Bit(chk, 27) && Bit(GEN[2], k))) != (Bit(chk, 28) && Bit(GEN[3], k))) != (Bit(chk, 29) && Bit(GEN[4], k)))
  {
    assert !Parity(chk, k, 0);
    assert Parity(chk, k, 1) == (Bit(chk, 25) && Bit(GEN[0], k));
    assert Parity(chk, k, 2) == (Parity(chk, k, 1) != (Bit(chk, 26) && Bit(GEN[1], k)));
    assert Parity(chk, k, 3) == (Parity(chk, k, 2) != (Bit(chk, 27) && Bit(GEN[2], k)));
    assert Parity(chk, k, 4) == (Parity(chk, k, 3) != (Bit(chk, 28) && Bit(GEN[3], k)));
  }

  /** The generators' low five bits are independent: no feedback cancels unless the top is clear. */
  lemma TopClear(d: nat)
    requires forall k: nat | k < 5 :: !Parity(d, k, 5)
    ensures !Bit(d, 25) && !Bit(d, 26) && !Bit(d, 27) && !Bit(d, 28) && !Bit(d, 29)
  {
    GenLowBits();
    ParityUnrolled(d, 0); ParityUnrolled(d, 1); ParityUnrolled(d, 2); ParityUnrolled(d, 3); ParityUnrolled(d, 4);
    assert !Parity(d, 0, 5) && !Parity(d, 1, 5) && !Parity(d, 2, 5) && !Parity(d, 3, 5) && !Parity(d, 4, 5);
  }

  /** The step has no kernel on 30-bit states, so a difference in state never dies out. */
  lemma StepKernel(d: nat)
    requires d < 0x4000_0000 && Step(d, 0) == 0
    ensures d == 0
  {
    forall k: nat ensures (5 <= k < 30 && Bit(d, k - 5)) == Parity(d, k, 5) {
      StepBit(d, 0, k);
      BitOfZero(k);
    }
    TopClear(d);
    forall k: nat ensures !Bit(d, k) {
      if k < 25 {
        ParityUnrolled(d, k + 5);
        assert Bit(d, k + 5 - 5) == Parity(d, k + 5, 5);
      } else if k >= 30 {
        Pow2Thirty();
        NoHighBits(d, 30, k);
      }
    }
    NoBits(d);
  }

  // ----- whole strings -----

  lemma {:induction false} PolyConcat(chk: nat, us: seq<nat>, vs: seq<nat>)
    ensures Poly(chk, us + vs) == Poly(Poly(chk, us), vs)
  {
    if vs == [] {
      assert us + vs == us;
    } else {
      assert (us + vs)[..|us + vs| - 1] == us + vs[..|vs| - 1];
      PolyConcat(chk, us, vs[..|vs| - 1]);
    }
  }

  function XorSeq(us: seq<nat>, vs: seq<nat>): (ds: seq<nat>)
    requires |us| == |vs|
    ensures |ds| == |us| && forall i | 0 <= i < |us| :: ds[i] == Xor(us[i], vs[i])
  {
    if us == [] then [] else XorSeq(us[..|us| - 1], vs[..|vs| - 1]) + [Xor(us[|us| - 1], vs[|vs| - 1])]
  }

  lemma {:induction false} PolyLinear(a: nat, b: nat, us: seq<nat>, vs: seq<nat>)
    requires |us| == |vs|
    ensures Poly(Xor(a, b), XorSeq(us, vs)) == Xor(Poly(a, us), Poly(b, vs))
    decreases |us|
  {
    if us != [] {
      var n := |us| - 1;
      PolyLinear(a, b, us[..n], vs[..n]);
      StepLinear(Poly(a, us[..n]), Poly(b, vs[..n]), us[n], vs[n]);
      assert XorSeq(us, vs)[..n] == XorSeq(us[..n], vs[..n]);
    }
  }

  lemma {:induction false} PolyBound(chk: nat, vs: seq<nat>)
    requires chk < 0x4000_0000 && Below(vs, Five)
    ensures Poly(chk, vs) < 0x4000_0000
  {
    if vs != [] {
      PolyBound(chk, vs[..|vs| - 1]);
      StepBound(Poly(chk, vs[..|vs| - 1]), vs[|vs| - 1]);
    }
  }

  function Zeros(n: nat): (zs: seq<nat>)
    ensures |zs| == n && forall i | 0 <= i < n :: zs[i] == 0
  {
    if n == 0 then [] else Zeros(n - 1) + [0]
  }

  lemma {:induction false} PolyKernel(d: nat, n: nat)
    requires d < 0x4000_0000 && Poly(d, Zeros(n)) == 0
    ensures d == 0
    decreases n
  {
    if n > 0 {
      assert Zeros(n)[..n - 1] == Zeros(n - 1);
      PolyBound(d, Zeros(n - 1));
      StepKernel(Poly(d, Zeros(n - 1)));
      PolyKernel(d, n - 1);
    }
  }

  lemma {:induction false} PolyOfZeros(n: nat)
    ensures Poly(0, Zeros(n)) == 0
  {
    if n > 0 {
      assert Zeros(n)[..n - 1] == Zeros(n - 1);
      PolyOfZeros(n - 1);
      StepSmall(0, 0);
    }
  }

  lemma {:induction false} XorDisjoint(a: nat, b: nat, n: nat)
    requires a % Pow2(n) == 0 && b < Pow2(n)
    ensures Xor(a, b) == a + b
    decreases n
  {
    if n == 0 {
      XorZero(a);
    } else {
      ModHalf(a, Pow2(n - 1));
      XorDisjoint(a / 2, b / 2, n - 1);
    }
  }

  lemma AppendFive(x: nat, v: nat)
    requires v < 32
    ensures Xor(32 * x, v) == 32 * x + v
  {
    var five := 5;
    assert Pow2(five) == 2 * Pow2(4) == 8 * Pow2(2) == 32;
    XorDisjoint(32 * x, v, five);
  }

  /** Below 2^25 nothing is fed back: the step only appends five bits. */
  lemma StepSmall(x: nat, v: nat)
    requires x < 0x200_0000 && v < 32
    ensures Step(x, v) == 32 * x + v
  {
    var low := x % 0x200_0000;
    assert low == x;
    AppendFive(low, v);
    NoFeedback(Xor(32 * low, v), x, |GEN|);
  }

  lemma {:induction false} NoFeedback(c: nat, x: nat, n: nat)
    requires x < 0x200_0000 && n <= 5
    ensures Feedback(c, x, n) == c
  {
    if n > 0 {
      NoFeedback(c, x, n - 1);
      Pow2Thirty();
      NoHighBits(x, 25, 24 + n);
    }
  }

  /** Up to six values from the zero state are simply packed, five bits each. */
  lemma {:induction false} PolyPacks(vs: seq<nat>)
    requires |vs| <= 6 && Below(vs, Five)
    ensures Poly(0, vs) == Num(vs, Five)
  {
    if vs != [] {
      var init := vs[..|vs| - 1];
      PolyPacks(init);
      NumBound(init, Five);
      Pow2Monotone(5 * |init|, 25);
      Pow2Thirty();
      StepSmall(Num(init, Five), vs[|vs| - 1]);
    }
  }

  lemma {:induction false} Pow2Monotone(m: nat, n: nat)
    requires m <= n
    ensures Pow2(m) <= Pow2(n)
    decreases n
  {
    if m < n { Pow2Monotone(m, n - 1); }
  }

  lemma {:induction false} XorIsZero(a: nat, b: nat)
    ensures Xor(a, b) == 0 <==> a == b
  {
    XorSelf(a);
    XorCancel(a, b);
    XorZero(b);
  }

  /** The last six values shift the final state by exactly the number they pack. */
  lemma TailEffect(chk: nat, tail: seq<nat>)
    requires |tail| == 6 && Below(tail, Five)
    ensures Poly(chk, tail) == Xor(Poly(chk, Zeros(6)), Num(tail, Five))
  {
    PolyLinear(chk, 0, Zeros(6), tail);
    XorZero(chk);
    forall i | 0 <= i < 6 ensures Xor(Zeros(6)[i], tail[i]) == tail[i] { XorZero(tail[i]); }
    assert XorSeq(Zeros(6), tail) == tail;
    PolyPacks(tail);
  }

  /** Two equal-length strings with the same checksum cannot differ only within six consecutive places. */
  lemma BurstChangesChecksum(chk: nat, us: seq<nat>, vs: seq<nat>, at: nat)
    requires |us| == |vs| && Below(us, Five) && Below(vs, Five)
    requires at + 6 <= |us|
    requires forall i | 0 <= i < |us| :: us[i] != vs[i] ==> at <= i < at + 6
    requires us != vs
    ensures Poly(chk, us) != Poly(chk, vs)
  {
    if Poly(chk, us) == Poly(chk, vs) {
      var ds := XorSeq(us, vs);
      PolyLinear(chk, chk, us, vs);
      XorSelf(chk);
      XorSelf(Poly(chk, us));
      forall i | 0 <= i < |us| ensures ds[i] < 32 && (ds[i] == 0 <==> us[i] == vs[i]) {
        Pow2Thirty();
        XorBound(us[i], vs[i], 5);
        XorIsZero(us[i], vs[i]);
      }
      BurstVanishes(ds, at);
    }
  }

  lemma {:induction false} NumZero(ds: seq<nat>, i: nat)
    requires i < |ds| && Num(ds, Five) == 0
    ensures ds[i] == 0
  {
    if i < |ds| - 1 { NumZero(ds[..|ds| - 1], i); }
  }

  lemma BurstState(mid: seq<nat>, before: nat, after: nat)
    requires |mid| == 6 && Below(mid, Five) && Poly(0, Zeros(before) + (mid + Zeros(after))) == 0
    ensures Num(mid, Five) == 0
  {
    PolyConcat(0, Zeros(before), mid + Zeros(after));
    PolyOfZeros(before);
    PolyConcat(0, mid, Zeros(after));
    PolyBound(0, mid);
    PolyKernel(Poly(0, mid), after);
    PolyPacks(mid);
  }

  lemma BurstVanishes(ds: seq<nat>, at: nat)
    requires Below(ds, Five) && at + 6 <= |ds| && Poly(0, ds) == 0
    requires forall i | 0 <= i < |ds| :: ds[i] != 0 ==> at <= i < at + 6
    ensures forall i | 0 <= i < |ds| :: ds[i] == 0
  {
    var mid := ds[at..at + 6];
    assert ds == Zeros(at) + (mid + Zeros(|ds| - at - 6));
    BurstState(mid, at, |ds| - at - 6);
    forall i | 0 <= i < |ds| ensures ds[i] == 0 {
      if at <= i < at + 6 { NumZero(mid, i - at); }
    }
  }
}
