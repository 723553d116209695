/** The serial side of the serial-to-UDP bridge: datagrams on a byte stream, each behind a 16-bit
    little-endian length. */
module Deframer {
  import opened Words
  import opened Crypto
  import opened LittleEndian

  const MAX_FRAME := 1500

  predicate GoodLength(n: nat) {
    1 <= n <= MAX_FRAME
  }

  /** The complete frames at the front of the buffer and what is left; a length outside 1 to 1500 is
      skipped, two bytes at a time. */
  function Parse(buf: Bytes): (seq<Bytes>, Bytes)
    decreases |buf|
  {
    if |buf| < 2 then ([], buf)
    else
      var n := U16At(buf);
      if !GoodLength(n) then Parse(buf[2..])
      else if |buf| < 2 + n then ([], buf)
      else
        var (frames, rest) := Parse(buf[2 + n..]);
        ([buf[2..2 + n]] + frames, rest)
  }

  /** How the parser reads two bytes and what follows them: a length of 0 or above 1500 is skipped alone, and a
      frame is taken whole or left for later. */
  lemma {:induction false} ParseStep(lo: byte, hi: byte, rest: Bytes)
    ensures var n := lo as nat + 256 * (hi as nat);
      Parse([lo, hi] + rest)
        == (if n == 0 || n > 1500 then Parse(rest)
            else if |rest| < n then ([], [lo, hi] + rest)
            else ([rest[..n]] + Parse(rest[n..]).0, Parse(rest[n..]).1))
  {
    var buf, n := [lo, hi] + rest, lo as nat + 256 * (hi as nat);
    ValueOf(buf[..2]);
    assert buf[2..] == rest;
    if GoodLength(n) && n <= |rest| { assert buf[2..2 + n] == rest[..n] && buf[2 + n..] == rest[n..]; }
  }

  /** What one step of the parser takes off the front: a bad length, a whole frame, or nothing yet. */
  function Consumed(buf: Bytes): (k: nat)
    ensures k <= |buf|
  {
    if |buf| < 2 then 0
    else if !GoodLength(U16At(buf)) then 2
    else if |buf| < 2 + U16At(buf) then 0
    else 2 + U16At(buf)
  }

  /** More bytes do not change a step already taken. */
  lemma ConsumedKept(a: Bytes, b: Bytes)
    requires Consumed(a) > 0
    ensures Consumed(a + b) == Consumed(a) && U16At(a + b) == U16At(a)
    ensures (a + b)[Consumed(a)..] == a[Consumed(a)..] + b
    ensures (a + b)[2..Consumed(a)] == a[2..Consumed(a)]
  {
    assert (a + b)[..2] == a[..2];
  }

  /** Parsing in two parts: parse the first, put its residue in front of the second, parse again. */
  lemma {:induction false} ParseSplit(a: Bytes, b: Bytes)
    ensures var (first, residue) := Parse(a);
      var (second, last) := Parse(residue + b);
      Parse(a + b) == (first + second, last)
    decreases |a|
  {
    var (first, residue) := Parse(a);
    var k := Consumed(a);
    if k == 0 {
      assert [] + Parse(a + b).0 == Parse(a + b).0;
    } else {
      ConsumedKept(a, b);
      ParseSplit(a[k..], b);
      var (later, left) := Parse(a[k..]);
      var (second, last) := Parse(left + b);
      if k > 2 {
        assert [a[2..k]] + (later + second) == ([a[2..k]] + later) + second;
      }
    }
  }

  function Joined(chunks: seq<Bytes>): Bytes {
    if chunks == [] then [] else Joined(chunks[..|chunks| - 1]) + chunks[|chunks| - 1]
  }

  /** Frames emitted and residue after the chunks arrive one by one. */
  function FeedAll(chunks: seq<Bytes>): (seq<Bytes>, Bytes) {
    if chunks == [] then ([], [])
    else
      var (frames, residue) := FeedAll(chunks[..|chunks| - 1]);
      var (more, left) := Parse(residue + chunks[|chunks| - 1]);
      (frames + more, left)
  }

  /** However a stream is cut into chunks, the frames and the residue are those of the whole. */
  lemma {:induction false} ChunkingIndependent(chunks: seq<Bytes>)
    ensures FeedAll(chunks) == Parse(Joined(chunks))
    decreases |chunks|
  {
    if chunks != [] {
      ChunkingIndependent(chunks[..|chunks| - 1]);
      ParseSplit(Joined(chunks[..|chunks| - 1]), chunks[|chunks| - 1]);
    }
  }

  // ----- the writer -----

  /** A datagram as the bridge writes it to the serial line. */
  function Prefixed(data: Bytes): Bytes
    requires |data| <= 65535
  {
    ToLe(|data|, U16_SIZE) + data
  }

  predicate Datagrams(ps: seq<Bytes>) {
    forall i | 0 <= i < |ps| :: |ps[i]| <= 65535
  }

  function Stream(ps: seq<Bytes>): Bytes
    requires Datagrams(ps)
  {
    if ps == [] then [] else Prefixed(ps[0]) + Stream(ps[1..])
  }

  predicate GoodLengths(ps: seq<Bytes>) {
    forall i | 0 <= i < |ps| :: GoodLength(|ps[i]|)
  }

  lemma PrefixedFirst(data: Bytes, rest: Bytes)
    requires |data| <= 65535
    ensures var buf := Prefixed(data) + rest;
      |buf| >= 2 + |data| && U16At(buf) == |data| && buf[2..2 + |data|] == data && buf[2 + |data|..] == rest
  {
    var buf := Prefixed(data) + rest;
    Rooms();
    FromToLe(|data|, U16_SIZE);
    assert buf[..2] == ToLe(|data|, U16_SIZE);
  }

  /** The length goes out least significant byte first. */
  lemma {:induction false} PrefixedBytes(data: Bytes)
    requires |data| <= 65535
    ensures Prefixed(data) == [|data| % 256, |data| / 256] + data
  {
    BytesOf(|data|);
  }

  lemma {:induction false} FramesHaveGoodLengths(buf: Bytes)
    ensures GoodLengths(Parse(buf).0)
    decreases |buf|
  {
    if Consumed(buf) > 0 { FramesHaveGoodLengths(buf[Consumed(buf)..]); }
  }

  lemma {:induction false} GoodStream(ps: seq<Bytes>)
    requires Datagrams(ps) && GoodLengths(ps)
    ensures Parse(Stream(ps)) == (ps, [])
  {
    if ps != [] {
      GoodStream(ps[1..]);
      PrefixedFirst(ps[0], Stream(ps[1..]));
      assert ps == [ps[0]] + ps[1..];
    }
  }

  /** A written stream is read back as exactly the datagrams written, leaving nothing behind, if and
      only if every one of them has 1 to 1500 bytes. */
  lemma StreamRoundTrip(ps: seq<Bytes>)
    requires Datagrams(ps)
    ensures Parse(Stream(ps)) == (ps, []) <==> GoodLengths(ps)
  {
    if GoodLengths(ps) { GoodStream(ps); } else { FramesHaveGoodLengths(Stream(ps)); }
  }

  // ----- the bridge -----

  class SerialBridge {
    var serialBuf: Bytes

    constructor ()
      ensures serialBuf == []
    {
      serialBuf := [];
    }

    method ParseFrames() returns (frames: seq<Bytes>)
      modifies this
      ensures (frames, serialBuf) == Parse(old(serialBuf))
    {
      frames := [];
      ghost var all := Parse(serialBuf);
      assert [] + all.0 == all.0;
      while |serialBuf| >= 2
        invariant frames + Parse(serialBuf).0 == all.0 && Parse(serialBuf).1 == all.1
        decreases |serialBuf|
      {
        var n := U16At(serialBuf);
        if n == 0 || n > MAX_FRAME {
          serialBuf := serialBuf[2..];
          continue;
        }
        if |serialBuf| < 2 + n {
          break;
        }
        var frame := serialBuf[2..2 + n];
        assert frames + ([frame] + Parse(serialBuf[2 + n..]).0) == frames + [frame] + Parse(serialBuf[2 + n..]).0;
        frames := frames + [frame];
        serialBuf := serialBuf[2 + n..];
      }
      assert frames + [] == frames;
    }

    /** Bytes from the serial line: append, then take out what is complete. */
    method OnSerial(data: Bytes) returns (frames: seq<Bytes>)
      modifies this
      ensures (frames, serialBuf) == Parse(old(serialBuf) + data)
    {
      serialBuf := serialBuf + data;
      frames := ParseFrames();
    }
  }
}
