/** Unsigned integers as little-endian byte strings. */
module LittleEndian {
  import opened Words
  import opened Crypto

  const U16_SIZE := 2
  const U32_SIZE := 4
  const U64_SIZE := 8

  /** One more than the largest value of `n` bytes. */
  function Room(n: nat): (r: nat)
    ensures r > 0
  {
    if n == 0 then 1 else 256 * Room(n - 1)
  }

  function ToLe(v: nat, n: nat): (b: Bytes)
    ensures |b| == n
  {
    if n == 0 then [] else [v % 256] + ToLe(v / 256, n - 1)
  }

  function FromLe(b: Bytes): (v: nat)
    ensures v < Room(|b|)
  {
    if b == [] then 0 else b[0] + 256 * FromLe(b[1..])
  }

  /** Reading back what was written; a value too large for `n` bytes loses its high part. */
  lemma {:induction false} FromToLe(v: nat, n: nat)
    ensures v < Room(n) ==> FromLe(ToLe(v, n)) == v
  {
    if n > 0 {
      FromToLe(v / 256, n - 1);
      assert ToLe(v, n)[1..] == ToLe(v / 256, n - 1);
    }
  }

  lemma {:induction false} ToFromLe(b: Bytes)
    ensures ToLe(FromLe(b), |b|) == b
  {
    if b != [] {
      ToFromLe(b[1..]);
      var low, high := b[0], FromLe(b[1..]);
      assert (low + 256 * high) % 256 == low && (low + 256 * high) / 256 == high;
      assert b == [b[0]] + b[1..];
    }
  }

  function FourBytes(v: nat): Bytes {
    [v % 256, v / 0x100 % 256, v / 0x1_0000 % 256, v / 0x100_0000 % 256]
  }

  /** Least significant byte first. */
  lemma {:induction false} BytesOf(v: nat)
    ensures ToLe(v, 2) == [v % 256, v / 0x100 % 256]
    ensures ToLe(v, 4) == FourBytes(v)
  {
    var b, c, d := v / 256, v / 256 / 256, v / 256 / 256 / 256;
    assert c == v / 0x1_0000 && d == v / 0x100_0000;
    assert ToLe(b, 1) == [b % 256] && ToLe(d, 1) == [d % 256];
    assert ToLe(c, 2) == [c % 256] + ToLe(d, 1);
    assert ToLe(b, 3) == [b % 256] + ToLe(c, 2);
  }

  lemma {:induction false} BytesOfU64(v: nat)
    ensures ToLe(v, 8) == ToLe(v, 4) + ToLe(v / 0x1_0000_0000, 4)
  {
    var b, c, d, e := v / 256, v / 256 / 256, v / 256 / 256 / 256, v / 256 / 256 / 256 / 256;
    assert e == v / 0x1_0000_0000;
    assert ToLe(d, 5) == [d % 256] + ToLe(e, 4) && ToLe(d, 1) == [d % 256];
    assert ToLe(c, 6) == [c % 256] + ToLe(d, 5) && ToLe(c, 2) == [c % 256] + ToLe(d, 1);
    assert ToLe(b, 7) == [b % 256] + ToLe(c, 6) && ToLe(b, 3) == [b % 256] + ToLe(c, 2);
    assert ToLe(v, 8) == [v % 256] + ToLe(b, 7) && ToLe(v, 4) == [v % 256] + ToLe(b, 3);
  }

  /** What the bytes of a 16-bit or 32-bit field say. */
  lemma {:induction false} ValueOf(b: Bytes)
    ensures |b| == 2 ==> FromLe(b) == (b[0] as nat) + 0x100 * (b[1] as nat)
    ensures |b| == 4 ==>
      FromLe(b) == (b[0] as nat) + 0x100 * (b[1] as nat) + 0x1_0000 * (b[2] as nat) + 0x100_0000 * (b[3] as nat)
  {
    if |b| == 2 || |b| == 4 {
      FromLeNext(b);
      FromLeNext(b[1..]);
      if |b| == 4 {
        FromLeNext(b[1..][1..]);
        FromLeNext(b[1..][1..][1..]);
      }
    }
  }

  lemma FromLeNext(b: Bytes)
    requires b != []
    ensures FromLe(b) == (b[0] as nat) + 256 * FromLe(b[1..])
  {
  }

  function U16At(b: Bytes): (v: u16)
    requires |b| >= U16_SIZE
    ensures v == FromLe(b[..U16_SIZE])
  {
    Rooms();
    FromLe(b[..U16_SIZE])
  }

  function U32Of(b: Bytes): (v: u32)
    requires |b| == U32_SIZE
    ensures v == FromLe(b)
  {
    Rooms();
    FromLe(b)
  }

  function U64Of(b: Bytes): (v: u64)
    requires |b| == U64_SIZE
    ensures v == FromLe(b)
  {
    Rooms();
    FromLe(b)
  }

  lemma {:induction false} Rooms()
    ensures Room(U16_SIZE) == 0x1_0000 && Room(U32_SIZE) == 0x1_0000_0000
    ensures Room(U64_SIZE) == 0x1_0000_0000_0000_0000
  {
    assert Room(2) == 0x1_0000;
    assert Room(4) == 0x1_0000_0000;
    assert Room(8) == 0x1_0000_0000_0000_0000;
  }
}
