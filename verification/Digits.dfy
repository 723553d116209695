/** Big-endian numbers in base 32 and base 256: the reference against which bit regrouping is stated. */
module Digits {
  import opened Words

  /** Five-bit groups or octets. */
  datatype Radix = Five | Eight {
    function Width(): nat { if Five? then 5 else 8 }
    function Bits(n: nat): nat { if Five? then 5 * n else 8 * n }
    function Base(): nat { if Five? then 32 else 256 }
    function Times(n: nat): nat { if Five? then 32 * n else 256 * n }
    function Quotient(n: nat): nat { if Five? then n / 32 else n / 256 }
    function Remainder(n: nat): nat { if Five? then n % 32 else n % 256 }
  }

  function Num(ds: seq<nat>, r: Radix): nat {
    if ds == [] then 0 else r.Times(Num(ds[..|ds| - 1], r)) + ds[|ds| - 1]
  }

  function DigitsOf(n: nat, r: Radix, len: nat): (ds: seq<nat>)
    ensures |ds| == len && Below(ds, r)
    decreases len
  {
    if len == 0 then [] else DigitsOf(r.Quotient(n), r, len - 1) + [r.Remainder(n)]
  }

  predicate Below(ds: seq<nat>, r: Radix) {
    forall i | 0 <= i < |ds| :: ds[i] < r.Base()
  }

  lemma {:induction false} NumPush(ds: seq<nat>, d: nat, r: Radix)
    ensures Num(ds + [d], r) == r.Times(Num(ds, r)) + d
  {
    assert (ds + [d])[..|ds|] == ds;
  }

  lemma PowStep(r: Radix, n: nat)
    ensures Pow2(r.Bits(n + 1)) == r.Times(Pow2(r.Bits(n)))
  {
    var m := r.Bits(n);
    if r.Five? {
      assert Pow2(m + 5) == 2 * Pow2(m + 4) == 8 * Pow2(m + 2) == 32 * Pow2(m);
    } else {
      Pow2Plus8(m);
    }
  }

  lemma {:induction false} NumBound(ds: seq<nat>, r: Radix)
    requires Below(ds, r)
    ensures Num(ds, r) < Pow2(r.Bits(|ds|))
  {
    if ds != [] {
      NumBound(ds[..|ds| - 1], r);
      PowStep(r, |ds| - 1);
    }
  }

  /** Reading the digits of `n` back gives `n`. */
  lemma {:induction false} NumOfDigits(n: nat, r: Radix, len: nat)
    requires n < Pow2(r.Bits(len))
    ensures Num(DigitsOf(n, r, len), r) == n
    decreases len
  {
    if len > 0 {
      PowStep(r, len - 1);
      assert r.Quotient(n) < Pow2(r.Bits(len - 1));
      NumOfDigits(r.Quotient(n), r, len - 1);
      NumPush(DigitsOf(r.Quotient(n), r, len - 1), r.Remainder(n), r);
    }
  }

  /** A digit string is the digits of its number. */
  lemma {:induction false} DigitsOfNum(ds: seq<nat>, r: Radix)
    requires Below(ds, r)
    ensures DigitsOf(Num(ds, r), r, |ds|) == ds
  {
    if ds != [] {
      var init, last := ds[..|ds| - 1], ds[|ds| - 1];
      DigitsOfNum(init, r);
      assert r.Quotient(Num(ds, r)) == Num(init, r) && r.Remainder(Num(ds, r)) == last;
    }
  }
}
