/** Regrouping octets into five-bit values and back through a 32-bit shift accumulator. */
module Regroup {
  import opened Results
  import opened Words
  import opened Digits

  /** `(acc << w) | d` on 32-bit words, `w` the width of the digit. */
  function Absorb(acc: nat, d: nat, r: Radix): nat {
    Or(r.Times(acc) % 0x1_0000_0000, d)
  }

  /** `(acc >> bits) & mask`. */
  function Emit(acc: nat, bits: nat, r: Radix): nat {
    And(Shr(acc, bits), r.Base() - 1)
  }

  /** The digits taken in are the digits given out, then `bits` bits still in the accumulator. */
  ghost predicate Balanced(taken: nat, given: nat, acc: nat, bits: nat) {
    taken == given * Pow2(bits) + acc % Pow2(bits)
  }

  lemma {:induction false} SplitMod(acc: nat, p: nat, b: nat)
    requires p > 0 && b > 0
    ensures acc % (b * p) == (acc / p) % b * p + acc % p
  {
    var a, c, d := acc / p, acc / p / b, acc / p % b;
    DivSplit(acc, p);
    DivSplit(a, b);
    assert p * a == b * p * c + d * p by { assert p * (b * c) == b * p * c; }
    MulStep(d, b, p, acc % p);
    ModOf(b * p, c, d * p + acc % p);
  }

  lemma {:induction false} MulStep(d: nat, b: nat, p: nat, e: nat)
    requires d < b && e < p
    ensures d * p + e < b * p
  {
    MulAtLeast(p, b - d);
    assert b * p == d * p + p * (b - d);
  }

  lemma WidthPow(r: Radix, bits: nat)
    ensures Pow2(bits + r.Width()) == r.Base() * Pow2(bits)
  {
    assert Pow2(bits + 5) == 2 * Pow2(bits + 4) == 8 * Pow2(bits + 2) == 32 * Pow2(bits);
    Pow2Plus8(bits);
  }

  lemma EmitIsDigit(acc: nat, bits: nat, r: Radix)
    ensures Emit(acc, bits, r) == r.Remainder(Shr(acc, bits)) < r.Base()
  {
    var width := r.Width();
    WidthPow(r, 0);
    AndMask(Shr(acc, bits), width);
  }

  lemma {:induction false} Regrouping(given: nat, d: nat, p: nat, b: nat, rest: nat)
    ensures given * (b * p) + (d * p + rest) == (b * given + d) * p + rest
  {
    assert given * (b * p) == b * given * p;
    assert (b * given + d) * p == b * given * p + d * p;
  }

  /** Giving out a digit keeps the balance. */
  lemma EmitBalanced(taken: nat, given: nat, acc: nat, bits: nat, r: Radix)
    requires Balanced(taken, given, acc, bits + r.Width())
    ensures Balanced(taken, r.Times(given) + Emit(acc, bits, r), acc, bits)
  {
    var p, b, d := Pow2(bits), r.Base(), Emit(acc, bits, r);
    WidthPow(r, bits);
    EmitIsDigit(acc, bits, r);
    ShrDiv(acc, bits);
    SplitMod(acc, p, b);
    assert acc % (b * p) == d * p + acc % p;
    Regrouping(given, d, p, b, acc % p);
  }

  lemma {:induction false} ShiftedAligned(acc: nat, r: Radix)
    ensures r.Times(acc) % 0x1_0000_0000 % r.Base() == 0
  {
    if r.Five? {
      var q, z := acc / 0x800_0000, acc % 0x800_0000;
      assert 32 * acc == 0x1_0000_0000 * q + 32 * z;
      assert 32 * acc % 0x1_0000_0000 == 32 * z;
    } else {
      var q, z := acc / 0x100_0000, acc % 0x100_0000;
      assert 256 * acc == 0x1_0000_0000 * q + 256 * z;
      assert 256 * acc % 0x1_0000_0000 == 256 * z;
    }
  }

  lemma OrAligned(y: nat, d: nat, r: Radix)
    requires y % r.Base() == 0 && d < r.Base()
    ensures Or(y, d) == y + d
  {
    var width := r.Width();
    WidthPow(r, 0);
    OrDisjoint(y, d, width);
  }

  lemma AbsorbSum(acc: nat, d: nat, r: Radix)
    requires d < r.Base()
    ensures Absorb(acc, d, r) == r.Times(acc) % 0x1_0000_0000 + d
  {
    ShiftedAligned(acc, r);
    OrAligned(r.Times(acc) % 0x1_0000_0000, d, r);
  }

  lemma {:induction false} ModMod(x: nat, n: nat, m: nat)
    requires n > 0 && m > 0
    ensures x % (m * n) % n == x % n
  {
    DivSplit(x, n);
    var q: nat := x / n;
    DivSplit(q, m);
    var k: nat := q % m;
    SplitMod(x, n, m);
    assert x % (m * n) == n * k + x % n;
    ModOf(n, k, x % n);
  }

  lemma {:induction false} TimesMod(acc: nat, b: nat, p: nat)
    requires b > 0 && p > 0
    ensures b * acc % (b * p) == b * (acc % p)
  {
    DivSplit(acc, p);
    var a, e := acc / p, acc % p;
    MulStep(e, p, b, 0);
    assert b * acc == b * p * a + b * e;
    ModOf(b * p, a, b * e);
  }

  lemma {:induction false} AddToMultiple(y: nat, b: nat, p: nat, e: nat, d: nat)
    requires p > 0 && e < p && d < b && y % (b * p) == b * e
    ensures (y + d) % (b * p) == b * e + d
  {
    MulStep(e, p, b, d);
    DivSplit(y, b * p);
    var k := y / (b * p);
    ModOf(b * p, k, b * e + d);
  }

  lemma {:induction false} Pow2Mul(m: nat, n: nat)
    ensures Pow2(m) * Pow2(n) == Pow2(m + n)
  {
    if m > 0 { Pow2Mul(m - 1, n); }
  }

  lemma AbsorbMod(acc: nat, d: nat, bits: nat, r: Radix)
    requires d < r.Base() && bits + r.Width() <= 32
    ensures Absorb(acc, d, r) % Pow2(bits + r.Width()) == r.Times(acc % Pow2(bits)) + d
  {
    var p, b, top := Pow2(bits), r.Base(), 32 - bits - r.Width();
    WidthPow(r, bits);
    AbsorbSum(acc, d, r);
    Pow2Half();
    Pow2Mul(top, bits + r.Width());
    ModMod(b * acc, b * p, Pow2(top));
    TimesMod(acc, b, p);
    AddToMultiple(b * acc % 0x1_0000_0000, b, p, acc % p, d);
  }

  /** Taking in a digit keeps the balance, as long as the accumulator has room for it. */
  lemma AbsorbBalanced(taken: nat, given: nat, acc: nat, bits: nat, d: nat, r: Radix)
    requires Balanced(taken, given, acc, bits) && d < r.Base() && bits + r.Width() <= 32
    ensures Balanced(r.Times(taken) + d, given, Absorb(acc, d, r), bits + r.Width())
  {
    var p, b := Pow2(bits), r.Base();
    WidthPow(r, bits);
    AbsorbMod(acc, d, bits, r);
    Scaled(given, p, b, acc % p);
  }

  lemma {:induction false} Scaled(given: nat, p: nat, b: nat, e: nat)
    ensures b * (given * p + e) == given * (b * p) + b * e
  {
    assert b * (given * p) == given * (b * p);
  }

  /** Every bit taken in has been given out, in order, except the low `bits` bits of the accumulator. */
  ghost predicate Flow(taken: seq<nat>, from: Radix, given: seq<nat>, to: Radix, acc: nat, bits: nat) {
    && Below(given, to)
    && from.Bits(|taken|) == to.Bits(|given|) + bits
    && Balanced(Num(taken, from), Num(given, to), acc, bits)
  }

  lemma FlowTake(taken: seq<nat>, from: Radix, given: seq<nat>, to: Radix, acc: u32, bits: nat, d: nat)
    requires Flow(taken, from, given, to, acc, bits) && d < from.Base() && bits + from.Width() <= 32
    ensures Flow(taken + [d], from, given, to, Absorb(acc, d, from), bits + from.Width())
  {
    NumPush(taken, d, from);
    AbsorbBalanced(Num(taken, from), Num(given, to), acc, bits, d, from);
  }

  lemma FlowGive(taken: seq<nat>, from: Radix, given: seq<nat>, to: Radix, acc: u32, bits: nat)
    requires Flow(taken, from, given, to, acc, bits + to.Width())
    ensures Flow(taken, from, given + [Emit(acc, bits, to)], to, acc, bits)
    ensures Emit(acc, bits, to) < to.Base()
  {
    EmitIsDigit(acc, bits, to);
    EmitBalanced(Num(taken, from), Num(given, to), acc, bits, to);
    NumPush(given, Emit(acc, bits, to), to);
  }

  // ----- the accumulator loop -----

  /** The shift accumulator, the number of its low bits still to be given out, and what has been. */
  datatype Pump = Pump(acc: u32, bits: nat, out: seq<nat>)

  /** Give out digits of width `to` while there are enough bits. */
  function Drain(p: Pump, to: Radix): Pump
    decreases p.bits
  {
    if p.bits < to.Width() then p
    else
      var bits := p.bits - to.Width();
      Drain(Pump(p.acc, bits, p.out + [Emit(p.acc, bits, to)]), to)
  }

  function Take(p: Pump, d: nat, from: Radix): Pump
    requires d < from.Base()
  {
    AbsorbFits(p.acc, d, from);
    Pump(Absorb(p.acc, d, from), p.bits + from.Width(), p.out)
  }

  function Feed(ds: seq<nat>, from: Radix, to: Radix): Pump
    requires Below(ds, from)
  {
    if ds == [] then Pump(0, 0, [])
    else Drain(Take(Feed(ds[..|ds| - 1], from, to), ds[|ds| - 1], from), to)
  }

  ghost predicate Flows(taken: seq<nat>, from: Radix, p: Pump, to: Radix) {
    Flow(taken, from, p.out, to, p.acc, p.bits)
  }

  lemma {:induction false} DrainFlows(taken: seq<nat>, from: Radix, p: Pump, to: Radix)
    requires Flows(taken, from, p, to)
    ensures Flows(taken, from, Drain(p, to), to) && Drain(p, to).bits < to.Width()
    decreases p.bits
  {
    if p.bits >= to.Width() {
      var bits := p.bits - to.Width();
      FlowGive(taken, from, p.out, to, p.acc, bits);
      DrainFlows(taken, from, Pump(p.acc, bits, p.out + [Emit(p.acc, bits, to)]), to);
    }
  }

  lemma {:induction false} FeedFlows(ds: seq<nat>, from: Radix, to: Radix)
    requires Below(ds, from)
    ensures Flows(ds, from, Feed(ds, from, to), to) && Feed(ds, from, to).bits < to.Width()
  {
    if ds != [] {
      var init, d := ds[..|ds| - 1], ds[|ds| - 1];
      FeedFlows(init, from, to);
      var p := Feed(init, from, to);
      FlowTake(init, from, p.out, to, p.acc, p.bits, d);
      assert ds == init + [d];
      DrainFlows(ds, from, Take(p, d, from), to);
    }
  }

  lemma FeedStep(ds: seq<nat>, i: nat, from: Radix, to: Radix)
    requires Below(ds, from) && i < |ds|
    ensures Feed(ds[..i + 1], from, to) == Drain(Take(Feed(ds[..i], from, to), ds[i], from), to)
  {
    assert ds[..i + 1][..i] == ds[..i];
  }

  lemma AbsorbFits(acc: u32, d: nat, r: Radix)
    requires d < r.Base()
    ensures Absorb(acc, d, r) < 0x1_0000_0000
  {
    AbsorbSum(acc, d, r);
    ShiftedAligned(acc, r);
  }

  const OCTETS := 32
  const FIVES := 52

  /** The inner loop of both directions: store digits at `out[n0..]` until too few bits remain;
      `full` if `out` had no room for one. */
  method DrainInto(out: array<byte>, n0: nat, acc: u32, bits0: nat, to: Radix) returns (n: nat, bits: nat, full: bool)
    requires n0 <= out.Length
    modifies out
    ensures !full ==> n <= out.Length && Pump(acc, bits, out[..n]) == Drain(Pump(acc, bits0, old(out[..n0])), to)
    ensures full ==> |Drain(Pump(acc, bits0, old(out[..n0])), to).out| > out.Length
  {
    n, bits, full := n0, bits0, false;
    ghost var end := Drain(Pump(acc, bits0, out[..n0]), to);
    while bits >= to.Width()
      invariant n <= out.Length && !full
      invariant Drain(Pump(acc, bits, out[..n]), to) == end
    {
      bits := bits - to.Width();
      ghost var given := out[..n] + [Emit(acc, bits, to)];
      if n == out.Length {
        DrainGrows(Pump(acc, bits, given), to);
        full := true;
        return;
      }
      EmitIsDigit(acc, bits, to);
      out[n] := Emit(acc, bits, to);
      n := n + 1;
      assert out[..n] == given;
    }
  }

  /** The regrouping loop; it stops early when a 33rd octet would be needed. */
  method PumpFives(payload: seq<nat>, out: array<byte>) returns (acc: u32, bits: nat, n: nat, full: bool)
    requires Below(payload, Five) && out.Length == OCTETS
    modifies out
    ensures if full then |Feed(payload, Five, Eight).out| > OCTETS
            else n <= OCTETS && Pump(acc, bits, out[..n]) == Feed(payload, Five, Eight)
  {
    acc, bits, n, full := 0, 0, 0, false;
    for i := 0 to |payload|
      invariant n <= OCTETS
      invariant Pump(acc, bits, out[..n]) == Feed(payload[..i], Five, Eight)
    {
      FeedStep(payload, i, Five, Eight);
      AbsorbFits(acc, payload[i], Five);
      acc := Absorb(acc, payload[i], Five);
      n, bits, full := DrainInto(out, n, acc, bits + 5, Eight);
      if full {
        FeedGrows(payload, i + 1, Five, Eight);
        return;
      }
    }
    assert payload[..|payload|] == payload;
    full := false;
  }

  /** Five-bit values to octets: at most 32 of them, and whatever bits are left over must be zero. */
  method FiveToEight(payload: seq<nat>) returns (r: Option<seq<byte>>)
    requires Below(payload, Five)
    ensures var p := Feed(payload, Five, Eight);
      if |p.out| == OCTETS && p.acc % Pow2(p.bits) == 0 then r.Some? && r.value == p.out else r.None?
  {
    var out := new byte[OCTETS](_ => 0);
    var acc, bits, n, full := PumpFives(payload, out);
    if full { return None; }
    AndMask(acc, bits);
    if n != OCTETS || And(acc, Pow2(bits) - 1) != 0 {
      return None;
    }
    assert out[..n] == out[..];
    return Some(out[..]);
  }

  method PumpKey(key: seq<byte>, out: array<byte>) returns (acc: u32, bits: nat, n: nat)
    requires |key| == OCTETS && out.Length == FIVES
    modifies out
    ensures n == 51 && bits == 1 && Pump(acc, bits, out[..n]) == Feed(key, Eight, Five)
  {
    var full := false;
    acc, bits, n := 0, 0, 0;
    for i := 0 to |key|
      invariant n <= FIVES && Pump(acc, bits, out[..n]) == Feed(key[..i], Eight, Five)
    {
      FeedStep(key, i, Eight, Five);
      FeedLength(key[..i + 1]);
      AbsorbFits(acc, key[i], Eight);
      acc := Absorb(acc, key[i], Eight);
      n, bits, full := DrainInto(out, n, acc, bits + 8, Five);
      assert !full;
    }
    assert key[..|key|] == key;
    FeedLength(key);
  }

  /** Octets to five-bit values, the last one padded with zero bits. */
  method EightToFive(key: seq<byte>) returns (values: seq<byte>)
    requires |key| == OCTETS
    ensures values == DigitsOf(16 * Num(key, Eight), Five, FIVES)
  {
    var out := new byte[FIVES](_ => 0);
    var acc, bits, n := PumpKey(key, out);
    ghost var p := Pump(acc, bits, out[..n]);
    LastValue(key, p);
    if bits > 0 {
      PadBit(acc);
      Sixteen(5 - bits);
      out[n] := And(acc * Pow2(5 - bits) % 0x1_0000_0000, 0x1f);
    }
    assert out[..] == p.out + [16 * (acc % 2)];
    values := out[..];
  }

  lemma {:induction false} Sixteen(n: nat)
    requires n == 4
    ensures Pow2(n) == 16
  {
    assert Pow2(n) == 4 * Pow2(n - 2);
  }

  lemma FeedLength(key: seq<byte>)
    requires |key| <= OCTETS
    ensures var p := Feed(key, Eight, Five); |p.out| <= 51 && (|key| == OCTETS ==> |p.out| == 51 && p.bits == 1)
  {
    FeedFlows(key, Eight, Five);
  }

  lemma {:induction false} Times16(acc: u32)
    ensures acc * 16 % 0x1_0000_0000 % 32 == 16 * (acc % 2)
  {
    var q, z := acc / 0x1000_0000, acc % 0x1000_0000;
    assert acc * 16 == 0x1_0000_0000 * q + 16 * z;
    assert acc * 16 % 0x1_0000_0000 == 16 * z;
    assert z % 2 == acc % 2;
  }

  lemma PadBit(acc: u32)
    ensures And(acc * 16 % 0x1_0000_0000, 0x1f) == 16 * (acc % 2)
  {
    Times16(acc);
    AndMask31(acc * 16 % 0x1_0000_0000);
  }

  lemma AndMask31(y: nat)
    ensures And(y, 0x1f) == y % 32
  {
    var five := 5;
    assert Pow2(five) == 2 * Pow2(4) == 32;
    AndMask(y, five);
  }

  lemma {:induction false} LastNumber(taken: nat, given: nat, acc: nat, bits: nat)
    requires Balanced(taken, given, acc, bits) && bits == 1
    ensures 32 * given + 16 * (acc % 2) == 16 * taken
  {
    assert Pow2(bits) == 2 * Pow2(bits - 1);
  }

  lemma {:induction false} LastValue(key: seq<byte>, p: Pump)
    requires |key| == OCTETS && p == Feed(key, Eight, Five) && p.bits == 1 && |p.out| == 51
    ensures p.out + [16 * (p.acc % 2)] == DigitsOf(16 * Num(key, Eight), Five, FIVES)
  {
    FeedFlows(key, Eight, Five);
    LastNumber(Num(key, Eight), Num(p.out, Five), p.acc, p.bits);
    LastDigit(p.out, 16 * (p.acc % 2), 16 * Num(key, Eight));
  }

  lemma LastDigit(out: seq<nat>, d: nat, total: nat)
    requires Below(out, Five) && d < 32 && 32 * Num(out, Five) + d == total
    ensures out + [d] == DigitsOf(total, Five, |out| + 1)
  {
    var ds := out + [d];
    NumPush(out, d, Five);
    assert Num(ds, Five) == total && |ds| == |out| + 1;
    DigitsOfNum(ds, Five);
  }

  lemma {:induction false} DrainGrows(p: Pump, to: Radix)
    ensures |p.out| <= |Drain(p, to).out|
    decreases p.bits
  {
    if p.bits >= to.Width() {
      var bits := p.bits - to.Width();
      DrainGrows(Pump(p.acc, bits, p.out + [Emit(p.acc, bits, to)]), to);
    }
  }

  lemma {:induction false} FeedGrows(ds: seq<nat>, i: nat, from: Radix, to: Radix)
    requires Below(ds, from) && i <= |ds|
    ensures |Feed(ds[..i], from, to).out| <= |Feed(ds, from, to).out|
  {
    if i == |ds| {
      assert ds[..i] == ds;
    } else {
      var init := ds[..|ds| - 1];
      FeedGrows(init, i, from, to);
      assert init[..i] == ds[..i];
      DrainGrows(Take(Feed(init, from, to), ds[|ds| - 1], from), to);
    }
  }

  /** What the loop computes on 52 values: the octets of the number they spell, without its last four bits. */
  lemma {:induction false} FiveToEightMeaning(payload: seq<nat>)
    requires Below(payload, Five) && |payload| == FIVES
    ensures var p := Feed(payload, Five, Eight);
      && |p.out| == OCTETS && Num(payload, Five) % 16 == p.acc % Pow2(p.bits)
      && (p.acc % Pow2(p.bits) == 0 ==> p.out == DigitsOf(Num(payload, Five) / 16, Eight, OCTETS))
  {
    FeedFlows(payload, Five, Eight);
    var p := Feed(payload, Five, Eight);
    FourBitsLeft(Num(payload, Five), Num(p.out, Eight), p.acc, p.bits);
    DigitsOfNum(p.out, Eight);
  }

  lemma {:induction false} FourBitsLeft(taken: nat, given: nat, acc: nat, bits: nat)
    requires Balanced(taken, given, acc, bits) && bits == 4
    ensures taken % 16 == acc % Pow2(bits) && taken / 16 == given
  {
    assert Pow2(bits) == 4 * Pow2(bits - 2);
  }
}
