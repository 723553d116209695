/** The `npub` codec: a 32-byte key as "npub1", 52 payload characters and 6 checksum characters. */
module Bech32 {
  import opened Results
  import opened Words
  import opened Digits
  import opened Checksum
  import opened Field
  import opened Regroup

  /** "qpzry9x8gf2tvdw0s3jn54khce6mua7l" in ASCII. */
  const CHARSET: seq<byte> := [113, 112, 122, 114, 121, 57, 120, 56, 103, 102, 50, 116, 118, 100, 119, 48, 115, 51,
                               106, 110, 53, 52, 107, 104, 99, 101, 54, 109, 117, 97, 55, 108]

  /** "npub" in ASCII, and the separator. */
  const NPUB: seq<byte> := [110, 112, 117, 98]
  const PREFIX: seq<byte> := NPUB + [49]

  const NPUB_LEN := 63
  const DATA_LEN := 58

  function Lower(c: byte): byte {
    if 65 <= c <= 90 then c + 32 else c
  }

  /** Position of `c` in the character set, searching from `i`. */
  function CharsetRev(c: byte, i: nat): Option<nat>
    requires i <= 32
    decreases 32 - i
  {
    if i == 32 then None else if CHARSET[i] == c then Some(i) else CharsetRev(c, i + 1)
  }

  /** The five-bit values of a run of characters; `None` if one is outside the character set. */
  function ValuesOf(s: seq<byte>): (r: Option<seq<nat>>)
    ensures r.Some? ==> |r.value| == |s| && Below(r.value, Five)
    ensures r.Some? ==> forall i | 0 <= i < |s| :: CHARSET[r.value[i]] == Lower(s[i])
  {
    if s == [] then Some([])
    else
      var init, last := ValuesOf(s[..|s| - 1]), CharsetRev(Lower(s[|s| - 1]), 0);
      RevInSet(Lower(s[|s| - 1]), 0);
      if init.None? || last.None? then None else Some(init.value + [last.value])
  }

  function CharsOf(vs: seq<nat>): (s: seq<byte>)
    requires Below(vs, Five)
    ensures |s| == |vs| && forall i | 0 <= i < |vs| :: s[i] == CHARSET[vs[i]]
  {
    if vs == [] then [] else CharsOf(vs[..|vs| - 1]) + [CHARSET[vs[|vs| - 1]]]
  }

  /** The expanded human-readable part: the high bits of each character, a zero, the low bits of each. */
  function Expanded(hrp: seq<byte>): (vs: seq<nat>)
    ensures Below(vs, Five)
  {
    Highs(hrp) + [0] + Lows(hrp)
  }

  function Highs(hrp: seq<byte>): (vs: seq<nat>)
    ensures |vs| == |hrp| && Below(vs, Five)
  {
    if hrp == [] then [] else Highs(hrp[..|hrp| - 1]) + [hrp[|hrp| - 1] / 32]
  }

  function Lows(hrp: seq<byte>): (vs: seq<nat>)
    ensures |vs| == |hrp| && Below(vs, Five)
  {
    if hrp == [] then [] else Lows(hrp[..|hrp| - 1]) + [hrp[|hrp| - 1] % 32]
  }

  const START: nat := Poly(1, Expanded(NPUB))

  /** The 58 values of a key: the base-32 digits of the key with four zero bits appended, then the
      digits that bring the checksum to 1. */
  function EncodeValues(key: seq<byte>): (vs: seq<nat>)
    requires |key| == OCTETS
    ensures |vs| == DATA_LEN && Below(vs, Five)
  {
    var payload := DigitsOf(16 * Num(key, Eight), Five, FIVES);
    payload + DigitsOf(Xor(Poly(START, payload + Zeros(6)), 1), Five, 6)
  }

  function DecodeValues(vs: seq<nat>): (r: Option<seq<byte>>)
    requires |vs| == DATA_LEN
    ensures r.Some? ==> |r.value| == OCTETS
  {
    if Poly(START, vs) != 1 then None else DecodePayload(Num(vs[..FIVES], Five))
  }

  /** 260 bits to 32 octets; the four padding bits must be zero. */
  function DecodePayload(n: nat): (r: Option<seq<byte>>)
    ensures r.Some? ==> |r.value| == OCTETS
  {
    if n % 16 != 0 then None
    else
      var key: seq<byte> := DigitsOf(n / 16, Eight, OCTETS);
      Some(key)
  }

  /** Reference encoder. */
  function Encode(key: seq<byte>): (s: seq<byte>)
    requires |key| == OCTETS
    ensures |s| == NPUB_LEN
  {
    PREFIX + CharsOf(EncodeValues(key))
  }

  /** Reference decoder. */
  function Decode(s: seq<byte>): (r: Option<seq<byte>>)
    ensures r.Some? ==> |r.value| == OCTETS
  {
    if |s| != NPUB_LEN || s[..5] != PREFIX then None
    else
      var values := ValuesOf(s[5..]);
      if values.None? then None else DecodeValues(values.value)
  }

  // ----- the character set -----

  function Rank(c: byte): nat {
    if c == 113 then 0 else if c == 112 then 1 else if c == 122 then 2 else if c == 114 then 3 else
    if c == 121 then 4 else if c == 57 then 5 else if c == 120 then 6 else if c == 56 then 7 else
    if c == 103 then 8 else if c == 102 then 9 else if c == 50 then 10 else if c == 116 then 11 else
    if c == 118 then 12 else if c == 100 then 13 else if c == 119 then 14 else if c == 48 then 15 else
    if c == 115 then 16 else if c == 51 then 17 else if c == 106 then 18 else if c == 110 then 19 else
    if c == 53 then 20 else if c == 52 then 21 else if c == 107 then 22 else if c == 104 then 23 else
    if c == 99 then 24 else if c == 101 then 25 else if c == 54 then 26 else if c == 109 then 27 else
    if c == 117 then 28 else if c == 97 then 29 else if c == 55 then 30 else if c == 108 then 31 else 32
  }

  lemma RankOfCharset(v: nat)
    requires v < 32
    ensures Rank(CHARSET[v]) == v
  {
  }

  lemma {:induction false} RevInSet(c: byte, i: nat)
    requires i <= 32
    ensures var r := CharsetRev(c, i); r.Some? ==> r.value < 32 && CHARSET[r.value] == c
    decreases 32 - i
  {
    if i < 32 && CHARSET[i] != c { RevInSet(c, i + 1); }
  }

  lemma {:induction false} RevOfCharset(v: nat, i: nat)
    requires i <= v < 32
    ensures CharsetRev(CHARSET[v], i) == Some(v)
    decreases 32 - i
  {
    RankOfCharset(v);
    RankOfCharset(i);
    if i < v { RevOfCharset(v, i + 1); }
  }

  lemma CharsetIsLower(v: nat)
    requires v < 32
    ensures Lower(CHARSET[v]) == CHARSET[v]
  {
  }

  /** The values are those whose characters the lowered string has. */
  lemma {:induction false} ValuesAre(s: seq<byte>, vs: seq<nat>)
    requires |vs| == |s| && Below(vs, Five) && forall i | 0 <= i < |s| :: Lower(s[i]) == CHARSET[vs[i]]
    ensures ValuesOf(s) == Some(vs)
  {
    if s != [] {
      var n := |s| - 1;
      ValuesAre(s[..n], vs[..n]);
      RevOfCharset(vs[n], 0);
      assert vs[..n] + [vs[n]] == vs;
    }
  }

  lemma {:induction false} ValuesOfChars(vs: seq<nat>)
    requires Below(vs, Five)
    ensures ValuesOf(CharsOf(vs)) == Some(vs)
  {
    var s := CharsOf(vs);
    forall i | 0 <= i < |s| ensures Lower(s[i]) == CHARSET[vs[i]] { CharsetIsLower(vs[i]); }
    ValuesAre(s, vs);
  }

  // ----- the two are inverse -----

  lemma {:induction false} StartBound()
    ensures START < 0x4000_0000
  {
    PolyBound(1, Expanded(NPUB));
  }

  /** Eight bits to five: the digits of a key with four zero bits appended carry its number. */
  lemma Regrouped(key: seq<byte>, len: nat)
    requires 5 * len == 8 * |key| + 4
    ensures Num(DigitsOf(16 * Num(key, Eight), Five, len), Five) == 16 * Num(key, Eight)
  {
    NumBound(key, Eight);
    var m := 8 * |key|;
    assert Pow2(m + 4) == 4 * Pow2(m + 2) == 16 * Pow2(m);
    NumOfDigits(16 * Num(key, Eight), Five, len);
  }

  /** Five bits back to eight. */
  lemma Ungrouped(payload: seq<nat>, len: nat)
    requires Below(payload, Five) && 5 * |payload| == 8 * len + 4 && Num(payload, Five) % 16 == 0
    ensures 16 * Num(DigitsOf(Num(payload, Five) / 16, Eight, len), Eight) == Num(payload, Five)
  {
    NumBound(payload, Five);
    var m := 8 * len;
    assert Pow2(m + 4) == 4 * Pow2(m + 2) == 16 * Pow2(m);
    NumOfDigits(Num(payload, Five) / 16, Eight, len);
  }

  /** Appending the digits of `Poly(.., zeros) ^ 1` is the only way to bring the checksum to 1. */
  lemma {:induction false} TailForced(values: seq<nat>, tail: seq<nat>)
    requires Below(values, Five) && |tail| == 6 && Below(tail, Five)
    ensures Poly(START, values + tail) == 1 <==> tail == DigitsOf(Xor(Poly(START, values + Zeros(6)), 1), Five, 6)
  {
    var s := Poly(START, values);
    var c := Poly(s, Zeros(6));
    PolyConcat(START, values, tail);
    PolyConcat(START, values, Zeros(6));
    StartBound();
    PolyBound(START, values);
    PolyBound(s, Zeros(6));
    TailEffect(s, tail);
    ForcedNumber(c, Num(tail, Five));
    Pow2Thirty();
    XorBound(c, 1, 30);
    NumOfDigits(Xor(c, 1), Five, 6);
    DigitsOfNum(tail, Five);
  }

  lemma ForcedNumber(c: nat, n: nat)
    ensures Xor(c, n) == 1 <==> n == Xor(c, 1)
  {
    XorComm(c, n);
    XorCancel(n, c);
    XorComm(c, 1);
    XorCancel(1, c);
  }

  lemma EncodedPayload(key: seq<byte>)
    requires |key| == OCTETS
    ensures Num(EncodeValues(key)[..FIVES], Five) == 16 * Num(key, Eight)
  {
    assert EncodeValues(key)[..FIVES] == DigitsOf(16 * Num(key, Eight), Five, FIVES);
    Regrouped(key, FIVES);
  }

  lemma {:induction false} EncodedChecksum(key: seq<byte>)
    requires |key| == OCTETS
    ensures Poly(START, EncodeValues(key)) == 1
  {
    var vs := EncodeValues(key);
    var payload, tail := vs[..FIVES], vs[FIVES..];
    assert payload == DigitsOf(16 * Num(key, Eight), Five, FIVES) && vs == payload + tail;
    TailForced(payload, tail);
  }

  lemma DecodedKey(key: seq<byte>)
    requires |key| == OCTETS
    ensures DecodePayload(16 * Num(key, Eight)) == Some(key)
  {
    assert 16 * Num(key, Eight) / 16 == Num(key, Eight);
    DigitsOfNum(key, Eight);
  }

  lemma DecodeEncodeValues(key: seq<byte>)
    requires |key| == OCTETS
    ensures DecodeValues(EncodeValues(key)) == Some(key)
  {
    EncodedPayload(key);
    EncodedChecksum(key);
    DecodedKey(key);
  }

  lemma {:induction false} EncodeDecodeValues(vs: seq<nat>)
    requires |vs| == DATA_LEN && Below(vs, Five) && DecodeValues(vs).Some?
    ensures EncodeValues(DecodeValues(vs).value) == vs
  {
    var payload, tail := vs[..FIVES], vs[FIVES..];
    assert vs == payload + tail;
    TailForced(payload, tail);
    Ungrouped(payload, OCTETS);
    DigitsOfNum(payload, Five);
  }

  /** Decoding an encoded key returns the key. */
  lemma {:induction false} DecodeEncode(key: seq<byte>)
    requires |key| == OCTETS
    ensures Decode(Encode(key)) == Some(key)
  {
    var s, vs := Encode(key), EncodeValues(key);
    assert s[..5] == PREFIX && s[5..] == CharsOf(vs);
    ValuesOfChars(vs);
    DecodeEncodeValues(key);
  }

  function LowerAll(s: seq<byte>): (t: seq<byte>)
    ensures |t| == |s| && forall i | 0 <= i < |s| :: t[i] == Lower(s[i])
  {
    seq(|s|, i requires 0 <= i < |s| => Lower(s[i]))
  }

  /** Whatever the decoder accepts is, up to case, the encoding of what it returns: the padding
      bits and the checksum are forced. */
  lemma {:induction false} EncodeDecode(s: seq<byte>)
    requires Decode(s).Some?
    ensures LowerAll(s) == Encode(Decode(s).value)
  {
    var vs := ValuesOf(s[5..]).value;
    EncodeDecodeValues(vs);
    LoweredData(s, vs);
  }

  lemma {:induction false} LoweredData(s: seq<byte>, vs: seq<nat>)
    requires |s| == NPUB_LEN && s[..5] == PREFIX && ValuesOf(s[5..]) == Some(vs)
    ensures LowerAll(s) == PREFIX + CharsOf(vs)
  {
    forall i | 0 <= i < NPUB_LEN ensures LowerAll(s)[i] == (PREFIX + CharsOf(vs))[i] {
      if i < 5 {
        assert s[i] == s[..5][i] == PREFIX[i];
        assert Lower(PREFIX[i]) == PREFIX[i];
      } else {
        assert Lower(s[5..][i - 5]) == CHARSET[vs[i - 5]];
      }
    }
  }

  /** Only the lowered characters matter to their values. */
  lemma {:induction false} ValuesOfLowered(s: seq<byte>, t: seq<byte>)
    requires |s| == |t| && forall i | 0 <= i < |s| :: Lower(s[i]) == Lower(t[i])
    ensures ValuesOf(s) == ValuesOf(t)
  {
    if s != [] {
      assert Lower(s[|s| - 1]) == Lower(t[|t| - 1]);
      ValuesOfLowered(s[..|s| - 1], t[..|t| - 1]);
    }
  }

  /** What the decoder accepts: the right length and a lower-case prefix, with data in any mixture of
      cases that lowers to the encoding of the key. */
  lemma {:induction false} AcceptsExactly(s: seq<byte>, key: seq<byte>)
    requires |key| == OCTETS
    ensures Decode(s) == Some(key) <==> |s| == NPUB_LEN && s[..5] == PREFIX && LowerAll(s) == Encode(key)
  {
    if Decode(s) == Some(key) {
      EncodeDecode(s);
    } else if |s| == NPUB_LEN && s[..5] == PREFIX && LowerAll(s) == Encode(key) {
      var t := Encode(key);
      forall i | 0 <= i < |s[5..]| ensures Lower(s[5..][i]) == Lower(t[5..][i]) {
        assert t[5 + i] == LowerAll(s)[5 + i] == Lower(s[5 + i]);
      }
      ValuesOfLowered(s[5..], t[5..]);
      assert t[..5] == PREFIX;
      DecodeEncode(key);
    }
  }

  lemma {:induction false} CharsAreLower(vs: seq<nat>)
    requires Below(vs, Five)
    ensures LowerAll(CharsOf(vs)) == CharsOf(vs)
  {
    forall i | 0 <= i < |vs| ensures Lower(CharsOf(vs)[i]) == CharsOf(vs)[i] { CharsetIsLower(vs[i]); }
  }

  lemma {:induction false} LowerJoined(s: seq<byte>, t: seq<byte>)
    requires LowerAll(s) == s && LowerAll(t) == t
    ensures LowerAll(s + t) == s + t
  {
    forall i | 0 <= i < |s + t| ensures Lower((s + t)[i]) == (s + t)[i] {
      if i < |s| { assert LowerAll(s)[i] == s[i]; } else { assert LowerAll(t)[i - |s|] == t[i - |s|]; }
    }
  }

  /** Raising one letter does not show once lowered again. */
  lemma {:induction false} UpperOne(s: seq<byte>, i: nat)
    requires i < |s| && LowerAll(s) == s && 97 <= s[i] <= 122
    ensures LowerAll(s[i := s[i] - 32]) == s
  {
    var t := s[i := s[i] - 32];
    forall j | 0 <= j < |s| ensures LowerAll(t)[j] == s[j] { assert LowerAll(s)[j] == s[j]; }
  }

  lemma {:induction false} EncodedIsLower(key: seq<byte>)
    requires |key| == OCTETS
    ensures LowerAll(Encode(key)) == Encode(key) && Encode(key)[..5] == PREFIX
  {
    assert LowerAll(PREFIX) == PREFIX;
    CharsAreLower(EncodeValues(key));
    LowerJoined(PREFIX, CharsOf(EncodeValues(key)));
  }

  /** A string in mixed case that is accepted: any data letter of an encoding may be upper case. */
  lemma {:induction false} MixedCaseAccepted(key: seq<byte>, i: nat)
    requires |key| == OCTETS && 5 <= i < NPUB_LEN && 97 <= Encode(key)[i] <= 122
    ensures Decode(Encode(key)[i := Encode(key)[i] - 32]) == Some(key)
  {
    var s := Encode(key);
    var t := s[i := s[i] - 32];
    EncodedIsLower(key);
    UpperOne(s, i);
    assert t[..5] == s[..5];
    AcceptsExactly(t, key);
  }

  /** Changing any nonempty set of data characters within six consecutive positions is detected. */
  lemma {:induction false} BurstDetected(s: seq<byte>, t: seq<byte>, at: nat)
    requires Decode(s).Some? && |t| == NPUB_LEN && 5 <= at <= NPUB_LEN - 6
    requires forall i | 0 <= i < NPUB_LEN :: Lower(t[i]) != Lower(s[i]) ==> at <= i < at + 6
    requires LowerAll(t) != LowerAll(s)
    ensures Decode(t) == None
  {
    var us := ValuesOf(s[5..]).value;
    if ValuesOf(t[5..]).Some? && t[..5] == PREFIX {
      var vs := ValuesOf(t[5..]).value;
      forall i | 0 <= i < DATA_LEN
        ensures us[i] == vs[i] <==> Lower(s[i + 5]) == Lower(t[i + 5])
      {
        SameChar(us[i], vs[i]);
        assert s[5..][i] == s[i + 5] && t[5..][i] == t[i + 5];
      }
      SomewhereDifferent(s, t, us, vs);
      BurstChangesChecksum(START, us, vs, at - 5);
    }
  }

  lemma SomewhereDifferent(s: seq<byte>, t: seq<byte>, us: seq<nat>, vs: seq<nat>)
    requires |s| == |t| == NPUB_LEN && s[..5] == t[..5] && LowerAll(s) != LowerAll(t)
    requires |us| == |vs| == DATA_LEN
    requires forall i | 0 <= i < DATA_LEN :: us[i] == vs[i] <==> Lower(s[i + 5]) == Lower(t[i + 5])
    ensures us != vs
  {
    if us == vs {
      forall i | 0 <= i < NPUB_LEN ensures LowerAll(s)[i] == LowerAll(t)[i] {
        if i < 5 { assert s[..5][i] == t[..5][i]; } else { assert us[i - 5] == vs[i - 5]; }
      }
    }
  }

  lemma {:induction false} SameChar(u: nat, v: nat)
    requires u < 32 && v < 32
    ensures CHARSET[u] == CHARSET[v] <==> u == v
  {
    RankOfCharset(u);
    RankOfCharset(v);
  }

  // ----- by the book -----

  const BIP173_CHARACTERS := "qpzry9x8gf2tvdw0s3jn54khce6mua7l"

  lemma CharactersAreBip173()
    ensures |CHARSET| == |BIP173_CHARACTERS| == 32
    ensures forall i | 0 <= i < 32 :: CHARSET[i] == BIP173_CHARACTERS[i] as int
    ensures |PREFIX| == 5 && forall i | 0 <= i < 5 :: PREFIX[i] == "npub1"[i] as int
  {
  }

  /** The expansion of "npub". */
  const NPUB_EXPANDED: seq<nat> := [3, 3, 3, 3, 0, 14, 16, 21, 2]

  lemma {:induction false} HighsPush(s: seq<byte>, c: byte)
    ensures Highs(s + [c]) == Highs(s) + [c / 32] && Lows(s + [c]) == Lows(s) + [c % 32]
  {
    assert (s + [c])[..|s|] == s;
  }

  lemma {:induction false} FourExpanded(a: byte, b: byte, c: byte, d: byte)
    ensures Highs([a, b, c, d]) == [a / 32, b / 32, c / 32, d / 32]
    ensures Lows([a, b, c, d]) == [a % 32, b % 32, c % 32, d % 32]
  {
    HighsPush([], a);
    assert [] + [a] == [a];
    HighsPush([a], b);
    assert [a] + [b] == [a, b];
    HighsPush([a, b], c);
    assert [a, b] + [c] == [a, b, c];
    HighsPush([a, b, c], d);
    assert [a, b, c] + [d] == [a, b, c, d];
  }

  lemma {:induction false} NpubExpanded()
    ensures Expanded(NPUB) == NPUB_EXPANDED
  {
    FourExpanded(110, 112, 117, 98);
  }

  const ONE: seq<nat> := [0, 0, 0, 0, 0, 1]

  lemma {:induction false} OnlyOne(s: seq<nat>)
    requires State(s)
    ensures Num(s, Five) == 1 <==> s == ONE
  {
    NumSix(0, 0, 0, 0, 0, 1);
    DigitsOfNum(s, Five);
    DigitsOfNum(ONE, Five);
  }

  lemma NpubBelow(values: seq<nat>)
    requires Below(values, Five)
    ensures Below(NPUB_EXPANDED + values, Five)
  {
  }

  /** The polynomial of the expanded prefix and the values is 1 modulo the generator. */
  predicate OneModGenerator(values: seq<nat>)
    requires Below(values, Five)
  {
    NpubBelow(values);
    Remainder(ONE, NPUB_EXPANDED + values) == ONE
  }

  /** The checksum test is BIP-173's: the polynomial of the expanded prefix and the data is 1 modulo the
      generator. */
  lemma {:induction false} ChecksumIsBip173(values: seq<nat>)
    requires Below(values, Five)
    ensures Poly(START, values) == 1 <==> OneModGenerator(values)
  {
    NpubExpanded();
    PolyConcat(1, NPUB_EXPANDED, values);
    OnlyOne(ONE);
    PolyIsRemainder(ONE, NPUB_EXPANDED + values);
    OnlyOne(Remainder(ONE, NPUB_EXPANDED + values));
  }

  /** The five-bit values are the bits of the key, in order from the first, and then four zero bits. */
  ghost predicate SpellsKey(vs: seq<nat>, key: seq<byte>)
    requires |vs| == DATA_LEN && |key| == OCTETS
  {
    forall i: nat | i < 260 :: SpellsBit(vs, key, i)
  }

  predicate SpellsBit(vs: seq<nat>, key: seq<byte>, i: nat)
    requires |vs| == DATA_LEN && |key| == OCTETS && i < 260
  {
    Bit(vs[i / 5], 4 - i % 5) == (i < 256 && Bit(key[i / 8], 7 - i % 8))
  }

  /** Bit `k`, counted from the last. */
  predicate SpellsFromEnd(payload: seq<nat>, key: seq<byte>, k: nat)
    requires |payload| == FIVES && |key| == OCTETS && k < 260
  {
    Bit(payload[51 - k / 5], k % 5) == (k >= 4 && Bit(key[31 - (k - 4) / 8], (k - 4) % 8))
  }

  lemma {:induction false} PayloadBit(key: seq<byte>, k: nat)
    requires |key| == OCTETS && k < 260
    ensures SpellsFromEnd(DigitsOf(16 * Num(key, Eight), Five, FIVES), key, k)
  {
    Regrouped(key, FIVES);
    BitOfNum(DigitsOf(16 * Num(key, Eight), Five, FIVES), k);
    SixteenTimes(Num(key, Eight), k);
    if k >= 4 { BitOfOctets(key, k - 4); }
  }

  lemma {:induction false} PayloadSpells(payload: seq<nat>, key: seq<byte>, i: nat)
    requires |payload| == FIVES && |key| == OCTETS && i < 260 && SpellsFromEnd(payload, key, 259 - i)
    ensures Bit(payload[i / 5], 4 - i % 5) == (i < 256 && Bit(key[i / 8], 7 - i % 8))
  {
    FromTheEnd(i);
    if i < 256 { FromTheEndOctets(i); }
  }

  lemma {:induction false} PayloadFirst(key: seq<byte>, j: nat)
    requires |key| == OCTETS && j < FIVES
    ensures EncodeValues(key)[j] == DigitsOf(16 * Num(key, Eight), Five, FIVES)[j]
  {
  }

  lemma {:induction false} KeyBitsInOrder(key: seq<byte>, i: nat)
    requires |key| == OCTETS && i < 260
    ensures SpellsBit(EncodeValues(key), key, i)
  {
    PayloadBit(key, 259 - i);
    PayloadSpells(DigitsOf(16 * Num(key, Eight), Five, FIVES), key, i);
    PayloadFirst(key, i / 5);
  }

  lemma FromTheEnd(i: nat)
    requires i < 260
    ensures (259 - i) / 5 == 51 - i / 5 && (259 - i) % 5 == 4 - i % 5
  {
  }

  lemma FromTheEndOctets(i: nat)
    requires i < 256
    ensures (255 - i) / 8 == 31 - i / 8 && (255 - i) % 8 == 7 - i % 8
  {
  }

  lemma {:induction false} SixteenTimes(n: nat, k: nat)
    ensures Bit(16 * n, k) == (k >= 4 && Bit(n, k - 4))
  {
    assert Pow2(4) == 16;
    BitAppend(n, 0, 4, k);
    if k < 4 { BitOfZero(k); }
  }

  /** "npub1" and then the characters of the values. */
  predicate Written(s: seq<byte>, vs: seq<nat>) {
    && |s| == 63 && |vs| == 58 && Below(vs, Five)
    && (forall i | 0 <= i < 5 :: s[i] == "npub1"[i] as int)
    && (forall i | 0 <= i < 58 :: s[5 + i] == BIP173_CHARACTERS[vs[i]] as int)
  }

  lemma {:induction false} EncodedIsWritten(key: seq<byte>)
    requires |key| == OCTETS
    ensures Written(Encode(key), EncodeValues(key))
  {
    var vs := EncodeValues(key);
    CharactersAreBip173();
    assert forall i | 0 <= i < 58 :: Encode(key)[5 + i] == CharsOf(vs)[i];
  }

  /** An encoded key is what BIP-173 and NIP-19 make of it: "npub1", the characters of 58 values, the first
      52 of them the bits of the key, and all of them 1 modulo the generator. */
  lemma {:induction false} EncodedByTheBook(key: seq<byte>)
    requires |key| == OCTETS
    ensures var vs := EncodeValues(key);
      Written(Encode(key), vs) && SpellsKey(vs, key) && OneModGenerator(vs)
  {
    EncodedIsWritten(key);
    forall i: nat | i < 260 ensures SpellsBit(EncodeValues(key), key, i) { KeyBitsInOrder(key, i); }
    EncodedChecksum(key);
    ChecksumIsBip173(EncodeValues(key));
  }

  // ----- the codec as the source runs it -----

  method PolymodStep(chk: u32, value: byte) returns (r: u32)
    ensures r == Step(chk, value)
  {
    var top := Shr(chk, 25);
    Pow2Thirty();
    AndMask(chk, 25);
    XorBound(32 * And(chk, 0x1ff_ffff), value, 30);
    var c := Xor(32 * And(chk, 0x1ff_ffff), value);
    ghost var c0 := c;
    for i := 0 to 5
      invariant c == Feedback(c0, chk, i)
    {
      BitShr(chk, 25, i);
      BitShr(top, i, 0);
      if Shr(top, i) % 2 == 1 {
        c := Xor(c, GEN[i]);
      }
    }
    StepBound(chk, value);
    r := c;
  }

  method FeedHighs(hrp: seq<byte>, start: u32) returns (chk: u32)
    ensures chk == Poly(start, Highs(hrp))
  {
    chk := start;
    for i := 0 to |hrp|
      invariant chk == Poly(start, Highs(hrp[..i]))
    {
      chk := PolymodStep(chk, hrp[i] / 32);
      assert hrp[..i + 1][..i] == hrp[..i];
      PolyPush(start, Highs(hrp[..i]), hrp[i] / 32);
    }
    assert hrp[..|hrp|] == hrp;
  }

  method FeedLows(hrp: seq<byte>, start: u32) returns (chk: u32)
    ensures chk == Poly(start, Lows(hrp))
  {
    chk := start;
    for i := 0 to |hrp|
      invariant chk == Poly(start, Lows(hrp[..i]))
    {
      chk := PolymodStep(chk, hrp[i] % 32);
      assert hrp[..i + 1][..i] == hrp[..i];
      PolyPush(start, Lows(hrp[..i]), hrp[i] % 32);
    }
    assert hrp[..|hrp|] == hrp;
  }

  method ExpandHrp(hrp: seq<byte>) returns (chk: u32)
    ensures chk == Poly(1, Expanded(hrp))
  {
    chk := FeedHighs(hrp, 1);
    chk := PolymodStep(chk, 0);
    PolyPush(1, Highs(hrp), 0);
    chk := FeedLows(hrp, chk);
    PolyConcat(1, Highs(hrp) + [0], Lows(hrp));
  }

  lemma {:induction false} PolyPush(chk: nat, vs: seq<nat>, v: nat)
    ensures Poly(chk, vs + [v]) == Step(Poly(chk, vs), v)
  {
    assert (vs + [v])[..|vs|] == vs;
  }

  lemma {:induction false} ValuesPrefix(s: seq<byte>, i: nat)
    requires i <= |s| && ValuesOf(s[..i]).None?
    ensures ValuesOf(s).None?
  {
    if i == |s| {
      assert s[..i] == s;
    } else {
      assert s[..|s| - 1][..i] == s[..i];
      ValuesPrefix(s[..|s| - 1], i);
    }
  }

  /** The values of the data characters and the checksum state after them; `None` at the first
      character outside the character set. */
  method ReadData(data: seq<byte>, start: u32) returns (values: Option<seq<nat>>, chk: u32)
    ensures values == ValuesOf(data)
    ensures values.Some? ==> chk == Poly(start, values.value)
  {
    var vs: seq<nat> := [];
    chk := start;
    for i := 0 to |data|
      invariant ValuesOf(data[..i]) == Some(vs) && chk == Poly(start, vs)
    {
      assert data[..i + 1][..i] == data[..i];
      var v := CharsetRev(Lower(data[i]), 0);
      RevInSet(Lower(data[i]), 0);
      if v.None? {
        ValuesPrefix(data, i + 1);
        return None, chk;
      }
      PolyPush(start, vs, v.value);
      chk := PolymodStep(chk, v.value);
      vs := vs + [v.value];
    }
    assert data[..|data|] == data;
    values := Some(vs);
  }

  method NpubToXOnly(s: seq<byte>) returns (r: Option<seq<byte>>)
    ensures r == Decode(s)
  {
    if |s| != NPUB_LEN || s[..5] != PREFIX { return None; }
    var chk := ExpandHrp(NPUB);
    var values;
    values, chk := ReadData(s[5..], chk);
    if values.None? || chk != 1 { return None; }
    r := FiveToEight(values.value[..FIVES]);
    FiveToEightMeaning(values.value[..FIVES]);
  }

  method FeedValues(values: seq<byte>, start: u32) returns (chk: u32)
    ensures chk == Poly(start, values)
  {
    chk := start;
    for i := 0 to |values|
      invariant chk == Poly(start, values[..i])
    {
      chk := PolymodStep(chk, values[i]);
      PolyPush(start, values[..i], values[i]);
      assert values[..i + 1] == values[..i] + [values[i]];
    }
    assert values[..|values|] == values;
  }

  /** The six checksum values: five-bit groups of the number, most significant first. */
  method TailDigits(pm: u32) returns (tail: seq<nat>)
    requires pm < 0x4000_0000
    ensures tail == DigitsOf(pm, Five, 6)
  {
    tail := [];
    for i := 0 to 6
      invariant |tail| == i && forall j | 0 <= j < i :: tail[j] == Emit(pm, 5 * (5 - j), Five)
    {
      tail := tail + [Emit(pm, 5 * (5 - i), Five)];
    }
    TailIsDigits(pm, tail, 6);
  }

  lemma {:induction false} TailIsDigits(pm: nat, tail: seq<nat>, n: nat)
    requires |tail| == n && forall j | 0 <= j < n :: tail[j] == Emit(pm, 5 * (n - 1 - j), Five)
    ensures tail == DigitsOf(pm, Five, n)
    decreases n
  {
    if n > 0 {
      var init := tail[..n - 1];
      forall j | 0 <= j < n - 1 ensures init[j] == Emit(pm / 32, 5 * (n - 2 - j), Five) {
        ShrFive(pm, 5 * (n - 2 - j));
      }
      TailIsDigits(pm / 32, init, n - 1);
      EmitIsDigit(pm, 0, Five);
    }
  }

  lemma ShrFive(w: nat, k: nat)
    ensures Shr(w, k + 5) == Shr(w / 32, k)
  {
    assert Shr(w, k + 5) == Shr(w / 2, k + 4) == Shr(w / 2 / 2, k + 3) == Shr(w / 2 / 2 / 2, k + 2)
        == Shr(w / 2 / 2 / 2 / 2, k + 1);
  }

  method XOnlyToNpub(key: seq<byte>) returns (out: seq<byte>)
    requires |key| == OCTETS
    ensures out == Encode(key)
  {
    var values := EightToFive(key);
    var chk := ExpandHrp(NPUB);
    chk := FeedValues(values, chk);
    chk := FeedValues([0, 0, 0, 0, 0, 0], chk);
    assert Zeros(6) == [0, 0, 0, 0, 0, 0];
    PolyConcat(START, values, Zeros(6));
    ChecksumState(values);
    var tail := TailDigits(Xor(chk, 1));
    assert values + tail == EncodeValues(key);
    out := PREFIX + CharsOf(values + tail);
  }

  lemma ChecksumState(values: seq<nat>)
    requires Below(values, Five)
    ensures Xor(Poly(START, values + Zeros(6)), 1) < 0x4000_0000
  {
    StartBound();
    PolyBound(START, values + Zeros(6));
    Pow2Thirty();
    XorBound(Poly(START, values + Zeros(6)), 1, 30);
  }
}
