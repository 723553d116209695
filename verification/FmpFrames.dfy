/** FMP link frames: a 4-byte prefix (version and phase, flags, payload length), session indices, and a
    handshake message or an encrypted payload. The version is that of the XX handshake. */
module FmpFrames {
  import opened Results
  import opened Words
  import opened Crypto
  import opened LittleEndian

  const FMP_VERSION: byte := 1
  const COMMON_PREFIX_SIZE := 4
  const ESTABLISHED_HEADER_SIZE := 16
  const PHASE_ESTABLISHED: byte := 0
  const PHASE_MSG1: byte := 1
  const PHASE_MSG2: byte := 2
  const PHASE_MSG3: byte := 3

  /** What a frame is built from. */
  datatype Frame =
    | Handshake1(sender: u32, noise: Bytes)
    | Handshake2(sender: u32, receiver: u32, noise: Bytes)
    | Handshake3(sender: u32, receiver: u32, noise: Bytes)
    | Data(receiver: u32, counter: u64, flags: byte, key: Bytes, inner: Bytes)

  /** What parsing a frame yields. */
  datatype Message =
    | Msg1(sender: u32, noise: Bytes)
    | Msg2(sender: u32, receiver: u32, noise: Bytes)
    | Msg3(sender: u32, receiver: u32, noise: Bytes)
    | Established(receiver: u32, counter: u64, encrypted: Bytes)

  // ----- building -----

  function BuildPrefix(phase: byte, flags: byte, payloadLen: nat): (b: Bytes)
    ensures |b| == COMMON_PREFIX_SIZE
  {
    [FMP_VERSION * 16 + phase % 16, flags] + ToLe(payloadLen % 65536, U16_SIZE)
  }

  function Indices(f: Frame): Bytes
    requires !f.Data?
  {
    if f.Handshake1? then ToLe(f.sender, U32_SIZE) else ToLe(f.sender, U32_SIZE) + ToLe(f.receiver, U32_SIZE)
  }

  function Phase(f: Frame): byte {
    match f
    case Handshake1(_, _) => PHASE_MSG1
    case Handshake2(_, _, _) => PHASE_MSG2
    case Handshake3(_, _, _) => PHASE_MSG3
    case Data(_, _, _, _, _) => PHASE_ESTABLISHED
  }

  function EstablishedHeader(receiver: u32, counter: u64, flags: byte, payloadLen: nat): (b: Bytes)
    ensures |b| == ESTABLISHED_HEADER_SIZE
  {
    BuildPrefix(PHASE_ESTABLISHED, flags, payloadLen) + ToLe(receiver, U32_SIZE) + ToLe(counter, U64_SIZE)
  }

  function HeaderOf(f: Frame): Bytes
    requires f.Data?
  {
    EstablishedHeader(f.receiver, f.counter, f.flags, |f.inner|)
  }

  function Encrypted(c: Suite, f: Frame): Bytes
    requires f.Data?
  {
    c.seal(f.key, f.counter, HeaderOf(f), f.inner)
  }

  function HandshakeWire(f: Frame): Bytes
    requires !f.Data?
  {
    BuildPrefix(Phase(f), 0, |Indices(f)| + |f.noise|) + (Indices(f) + f.noise)
  }

  /** The bytes of a frame. */
  function Wire(c: Suite, f: Frame): Bytes {
    if f.Data? then HeaderOf(f) + Encrypted(c, f) else HandshakeWire(f)
  }

  // ----- parsing -----

  function ParsePrefix(data: Bytes): Option<(byte, byte, u16)> {
    if |data| < COMMON_PREFIX_SIZE || data[0] / 16 != FMP_VERSION then None
    else Some((data[0] % 16, data[1], U16At(data[2..])))
  }

  function ParseMessage(data: Bytes): Option<Message> {
    var prefix := ParsePrefix(data);
    if prefix.None? then None
    else
      var phase, payload := prefix.value.0, data[4..];
      if phase == PHASE_MSG1 then
        if |payload| < 4 then None else Some(Msg1(U32Of(payload[..4]), payload[4..]))
      else if phase == PHASE_MSG2 then
        if |payload| < 8 then None else Some(Msg2(U32Of(payload[..4]), U32Of(payload[4..8]), payload[8..]))
      else if phase == PHASE_MSG3 then
        if |payload| < 8 then None else Some(Msg3(U32Of(payload[..4]), U32Of(payload[4..8]), payload[8..]))
      else if phase == PHASE_ESTABLISHED then
        if |payload| < 12 then None else Some(Established(U32Of(payload[..4]), U64Of(payload[4..12]), payload[12..]))
      else None
  }

  /** What a frame says to its receiver. */
  function MessageOf(c: Suite, f: Frame): Message {
    match f
    case Handshake1(s, noise) => Msg1(s, noise)
    case Handshake2(s, r, noise) => Msg2(s, r, noise)
    case Handshake3(s, r, noise) => Msg3(s, r, noise)
    case Data(r, counter, _, _, _) => Established(r, counter, Encrypted(c, f))
  }

  lemma PrefixBack(phase: byte, flags: byte, len: nat, rest: Bytes)
    requires phase < 16
    ensures var data := BuildPrefix(phase, flags, len) + rest;
      ParsePrefix(data) == Some((phase, flags, len % 65536)) && data[4..] == rest
  {
    var data := BuildPrefix(phase, flags, len) + rest;
    Rooms();
    FromToLe(len % 65536, U16_SIZE);
    assert data[2..][..U16_SIZE] == ToLe(len % 65536, U16_SIZE);
  }

  lemma U32Front(v: u32, rest: Bytes)
    ensures var data := ToLe(v, U32_SIZE) + rest;
      |data| >= 4 && data[..4] == ToLe(v, U32_SIZE) && U32Of(data[..4]) == v && data[4..] == rest
  {
    Rooms();
    FromToLe(v, U32_SIZE);
    assert (ToLe(v, U32_SIZE) + rest)[..4] == ToLe(v, U32_SIZE);
  }

  lemma U64Front(v: u64, rest: Bytes)
    ensures var data := ToLe(v, U64_SIZE) + rest;
      |data| >= 8 && U64Of(data[..8]) == v && data[8..] == rest
  {
    Rooms();
    FromToLe(v, U64_SIZE);
    assert (ToLe(v, U64_SIZE) + rest)[..8] == ToLe(v, U64_SIZE);
  }

  /** Two indices in front of a noise message. */
  lemma TwoIndices(s: u32, r: u32, noise: Bytes)
    ensures var payload := ToLe(s, U32_SIZE) + ToLe(r, U32_SIZE) + noise;
      |payload| >= 8 && U32Of(payload[..4]) == s && U32Of(payload[4..8]) == r && payload[8..] == noise
  {
    var payload := ToLe(s, U32_SIZE) + ToLe(r, U32_SIZE) + noise;
    assert payload == ToLe(s, U32_SIZE) + (ToLe(r, U32_SIZE) + noise);
    U32Front(s, ToLe(r, U32_SIZE) + noise);
    U32Front(r, noise);
    assert payload[4..8] == payload[4..][..4];
    assert payload[8..] == payload[4..][4..];
  }

  lemma IndexAndCounter(r: u32, counter: u64, encrypted: Bytes)
    ensures var payload := ToLe(r, U32_SIZE) + (ToLe(counter, U64_SIZE) + encrypted);
      |payload| >= 12 && U32Of(payload[..4]) == r && U64Of(payload[4..12]) == counter && payload[12..] == encrypted
  {
    var payload := ToLe(r, U32_SIZE) + (ToLe(counter, U64_SIZE) + encrypted);
    U32Front(r, ToLe(counter, U64_SIZE) + encrypted);
    U64Front(counter, encrypted);
    assert payload[4..12] == payload[4..][..8];
    assert payload[12..] == payload[4..][8..];
  }

  lemma DataWire(c: Suite, f: Frame)
    requires f.Data?
    ensures Wire(c, f) == BuildPrefix(PHASE_ESTABLISHED, f.flags, |f.inner|)
                        + (ToLe(f.receiver, U32_SIZE) + (ToLe(f.counter, U64_SIZE) + Encrypted(c, f)))
  {
  }

  /** Parsing returns the indices, counter and payload a frame was built from. */
  lemma ParseBack(c: Suite, f: Frame)
    ensures ParseMessage(Wire(c, f)) == Some(MessageOf(c, f))
  {
    match f
    case Handshake1(s, noise) =>
      PrefixBack(PHASE_MSG1, 0, |Indices(f)| + |noise|, Indices(f) + noise);
      U32Front(s, noise);
    case Handshake2(s, r, noise) =>
      PrefixBack(PHASE_MSG2, 0, |Indices(f)| + |noise|, Indices(f) + noise);
      TwoIndices(s, r, noise);
    case Handshake3(s, r, noise) =>
      PrefixBack(PHASE_MSG3, 0, |Indices(f)| + |noise|, Indices(f) + noise);
      TwoIndices(s, r, noise);
    case Data(r, counter, flags, _, inner) =>
      DataWire(c, f);
      PrefixBack(PHASE_ESTABLISHED, flags, |inner|, ToLe(r, U32_SIZE) + (ToLe(counter, U64_SIZE) + Encrypted(c, f)));
      IndexAndCounter(r, counter, Encrypted(c, f));
  }

  /** The encrypted part opens, under the first 16 bytes of the frame, to what was sealed. */
  lemma {:induction false} DataOpens(c: Suite, f: Frame)
    requires Lawful(c) && f.Data?
    ensures var data := Wire(c, f);
      |data| >= ESTABLISHED_HEADER_SIZE
      && c.open(f.key, f.counter, data[..ESTABLISHED_HEADER_SIZE], data[ESTABLISHED_HEADER_SIZE..]) == Some(f.inner)
  {
    var data := Wire(c, f);
    assert data[..ESTABLISHED_HEADER_SIZE] == HeaderOf(f) && data[ESTABLISHED_HEADER_SIZE..] == Encrypted(c, f);
  }

  // ----- the bytes -----

  lemma Low16(n: nat)
    ensures n % 65536 % 256 == n % 256 && n % 65536 / 256 % 256 == n / 256 % 256
  {
    var q, m := n / 65536, n % 65536;
    assert n == 256 * (256 * q + m / 256) + m % 256;
    assert n / 256 == 256 * q + m / 256;
  }

  /** Byte 0 is the version 1 and the phase, byte 1 the flags, bytes 2 and 3 the length, least significant
      first. */
  lemma {:induction false} PrefixLayout(phase: byte, flags: byte, len: nat)
    requires phase < 16
    ensures BuildPrefix(phase, flags, len) == [16 + phase, flags, len % 256, len / 256 % 256]
  {
    BytesOf(len % 65536);
    Low16(len);
    assert phase % 16 == phase;
  }

  /** Message 1 is phase 1 with the sender's index in bytes 4 to 7; messages 2 and 3 are phases 2 and 3 with the
      receiver's in bytes 8 to 11. Indices have their least significant byte first; the noise message follows. */
  lemma {:induction false} HandshakeLayout(f: Frame)
    requires !f.Data?
    ensures var len := |f.noise| + if f.Handshake1? then 4 else 8;
      var head := [if f.Handshake1? then 0x11 else if f.Handshake2? then 0x12 else 0x13, 0, len % 256, len / 256 % 256];
      HandshakeWire(f) == head + FourBytes(f.sender) + (if f.Handshake1? then [] else FourBytes(f.receiver)) + f.noise
  {
    PrefixLayout(Phase(f), 0, |Indices(f)| + |f.noise|);
    BytesOf(f.sender);
    if !f.Handshake1? { BytesOf(f.receiver); }
  }

  /** A data frame is phase 0 with the length of what is sealed, without its tag; then the receiver's index and
      the counter, least significant byte first; those 16 bytes are authenticated with the sealed rest. */
  lemma {:induction false} DataLayout(c: Suite, f: Frame)
    requires f.Data?
    ensures var (len, n) := (|f.inner|, f.counter);
      var header := [0x10, f.flags, len % 256, len / 256 % 256] + FourBytes(f.receiver) + FourBytes(n)
                    + FourBytes(n / 0x1_0000_0000);
      |header| == 16 && Wire(c, f) == header + c.seal(f.key, n, header, f.inner)
  {
    PrefixLayout(PHASE_ESTABLISHED, f.flags, |f.inner|);
    BytesOf(f.receiver);
    BytesOf(f.counter);
    BytesOfU64(f.counter);
    BytesOf(f.counter / 0x1_0000_0000);
    assert HeaderOf(f) == [0x10, f.flags, |f.inner| % 256, |f.inner| / 256 % 256] + FourBytes(f.receiver)
                          + FourBytes(f.counter) + FourBytes(f.counter / 0x1_0000_0000);
  }

  /** The 32-bit value at `data[i..i + 4]`, least significant byte first. */
  function Word(data: Bytes, i: nat): nat
    requires i + 4 <= |data|
  {
    data[i] as nat + 0x100 * (data[i + 1] as nat) + 0x1_0000 * (data[i + 2] as nat) + 0x100_0000 * (data[i + 3] as nat)
  }

  lemma WordAt(data: Bytes, i: nat)
    requires i + 4 <= |data|
    ensures Word(data, i) == U32Of(data[i..i + 4])
  {
    ValueOf(data[i..i + 4]);
  }

  /** A byte string is a message exactly if its version is 1, its phase is 0 to 3, and the indices, and the
      counter of phase 0, are all there; the indices are read from where they are written. */
  lemma {:induction false} ParsesIff(data: Bytes)
    ensures ParseMessage(data).Some? <==>
      && |data| >= 4
      && ((data[0] == 0x11 && |data| >= 8) || (data[0] == 0x12 && |data| >= 12) || (data[0] == 0x13 && |data| >= 12)
          || (data[0] == 0x10 && |data| >= 16))
    ensures ParseMessage(data).Some? ==>
      match ParseMessage(data).value
      case Msg1(s, noise) => data[0] == 0x11 && s == Word(data, 4) && noise == data[8..]
      case Msg2(s, r, noise) => data[0] == 0x12 && s == Word(data, 4) && r == Word(data, 8) && noise == data[12..]
      case Msg3(s, r, noise) => data[0] == 0x13 && s == Word(data, 4) && r == Word(data, 8) && noise == data[12..]
      case Established(r, n, sealed) =>
        data[0] == 0x10 && r == Word(data, 4) && n == FromLe(data[8..16]) && sealed == data[16..]
  {
    if |data| >= 8 {
      WordAt(data, 4);
      assert data[4..][..4] == data[4..8] && data[4..][4..] == data[8..];
    }
    if |data| >= 12 {
      WordAt(data, 8);
      assert data[4..][4..8] == data[8..12] && data[4..][8..] == data[12..];
    }
    if |data| >= 16 { assert data[4..][4..12] == data[8..16] && data[4..][12..] == data[16..]; }
  }

  // ----- splitting a byte stream -----

  /** Total length of the frame at the front, from its prefix alone. */
  function FrameLen(data: Bytes): Option<nat> {
    var prefix := ParsePrefix(data);
    if prefix.None? then None
    else
      var (phase, _, len) := prefix.value;
      if phase == PHASE_ESTABLISHED then Some(ESTABLISHED_HEADER_SIZE + len + TAG_SIZE)
      else if phase <= PHASE_MSG3 then Some(COMMON_PREFIX_SIZE + len)
      else None
  }

  function SplitFrames(data: Bytes): Option<seq<Bytes>>
    decreases |data|
  {
    if data == [] then Some([])
    else
      var n := FrameLen(data);
      if n.None? || n.value > |data| then None
      else
        var more := SplitFrames(data[n.value..]);
        if more.None? then None else Some([data[..n.value]] + more.value)
  }

  /** The payload length fits its 16-bit field. */
  predicate LengthFits(f: Frame) {
    if f.Data? then |f.inner| < 65536 else |Indices(f)| + |f.noise| < 65536
  }

  lemma PrefixLen(phase: byte, flags: byte, len: nat, body: Bytes, rest: Bytes)
    requires phase <= PHASE_MSG3
    ensures FrameLen(BuildPrefix(phase, flags, len) + body + rest)
         == Some(len % 65536 + if phase == PHASE_ESTABLISHED then ESTABLISHED_HEADER_SIZE + TAG_SIZE
                               else COMMON_PREFIX_SIZE)
  {
    PrefixBack(phase, flags, len, body + rest);
    assert BuildPrefix(phase, flags, len) + body + rest == BuildPrefix(phase, flags, len) + (body + rest);
  }

  lemma Wraps(len: nat)
    ensures len % 65536 == len <==> len < 65536
  {
  }

  /** The prefix of a frame gives its length exactly when the length field did not wrap. */
  lemma FrameLenExact(c: Suite, f: Frame, rest: Bytes)
    requires Lawful(c)
    ensures FrameLen(Wire(c, f) + rest) == Some(|Wire(c, f)|) <==> LengthFits(f)
  {
    if f.Data? {
      DataWire(c, f);
      Wraps(|f.inner|);
      assert |Wire(c, f)| == ESTABLISHED_HEADER_SIZE + |f.inner| + TAG_SIZE;
      var body := ToLe(f.receiver, U32_SIZE) + (ToLe(f.counter, U64_SIZE) + Encrypted(c, f));
      PrefixLen(PHASE_ESTABLISHED, f.flags, |f.inner|, body, rest);
    } else {
      HandshakeLenExact(f, rest);
    }
  }

  lemma HandshakeLenExact(f: Frame, rest: Bytes)
    requires !f.Data?
    ensures FrameLen(HandshakeWire(f) + rest) == Some(|HandshakeWire(f)|) <==> LengthFits(f)
  {
    var len := |Indices(f)| + |f.noise|;
    Wraps(len);
    PrefixLen(Phase(f), 0, len, Indices(f) + f.noise, rest);
  }

  function Wires(c: Suite, fs: seq<Frame>): seq<Bytes> {
    if fs == [] then [] else [Wire(c, fs[0])] + Wires(c, fs[1..])
  }

  function Joined(ws: seq<Bytes>): Bytes {
    if ws == [] then [] else ws[0] + Joined(ws[1..])
  }

  lemma {:induction false} SplitCons(first: Bytes, rest: Bytes, others: seq<Bytes>)
    requires FrameLen(first + rest) == Some(|first|) && SplitFrames(rest) == Some(others)
    ensures SplitFrames(first + rest) == Some([first] + others)
  {
    assert first != [];
    assert (first + rest)[..|first|] == first && (first + rest)[|first|..] == rest;
  }

  lemma {:induction false} SplitsBack(c: Suite, fs: seq<Frame>)
    requires Lawful(c) && AllFit(fs)
    ensures SplitFrames(Joined(Wires(c, fs))) == Some(Wires(c, fs))
  {
    if fs != [] {
      SplitsBack(c, fs[1..]);
      var first, others := Wire(c, fs[0]), Wires(c, fs[1..]);
      assert ([first] + others)[1..] == others;
      FrameLenExact(c, fs[0], Joined(others));
      SplitCons(first, Joined(others), others);
    }
  }

  lemma {:induction false} WiresAt(c: Suite, fs: seq<Frame>)
    ensures |Wires(c, fs)| == |fs| && forall i | 0 <= i < |fs| :: Wires(c, fs)[i] == Wire(c, fs[i])
  {
    if fs != [] { WiresAt(c, fs[1..]); }
  }

  lemma {:induction false} SplitHead(first: Bytes, rest: Bytes, others: seq<Bytes>)
    requires first != [] && SplitFrames(first + rest) == Some([first] + others)
    ensures FrameLen(first + rest) == Some(|first|) && SplitFrames(rest) == Some(others)
  {
    var data := first + rest;
    var n := FrameLen(data).value;
    var more := SplitFrames(data[n..]).value;
    assert ([data[..n]] + more)[0] == ([first] + others)[0];
    assert ([data[..n]] + more)[1..] == more && ([first] + others)[1..] == others;
    assert |data[..n]| == n == |first|;
    assert data[n..] == rest;
  }

  lemma {:induction false} HeadFits(c: Suite, f: Frame, rest: Bytes, others: seq<Bytes>)
    requires Lawful(c) && SplitFrames(Wire(c, f) + rest) == Some([Wire(c, f)] + others)
    ensures LengthFits(f) && SplitFrames(rest) == Some(others)
  {
    SplitHead(Wire(c, f), rest, others);
    FrameLenExact(c, f, rest);
  }

  predicate AllFit(fs: seq<Frame>) {
    forall i | 0 <= i < |fs| :: LengthFits(fs[i])
  }

  lemma {:induction false} WiresUnfold(c: Suite, fs: seq<Frame>)
    requires fs != []
    ensures Wires(c, fs) == [Wire(c, fs[0])] + Wires(c, fs[1..])
    ensures Joined(Wires(c, fs)) == Wire(c, fs[0]) + Joined(Wires(c, fs[1..]))
  {
    assert ([Wire(c, fs[0])] + Wires(c, fs[1..]))[1..] == Wires(c, fs[1..]);
  }

  /** The frames of `fs`, one after the other, split back into exactly those frames. */
  predicate SplitsExactly(c: Suite, fs: seq<Frame>) {
    SplitFrames(Joined(Wires(c, fs))) == Some(Wires(c, fs))
  }

  lemma {:induction false} HeadAndTail(c: Suite, fs: seq<Frame>)
    requires Lawful(c) && SplitsExactly(c, fs) && fs != []
    ensures LengthFits(fs[0]) && SplitsExactly(c, fs[1..])
  {
    WiresUnfold(c, fs);
    HeadFits(c, fs[0], Joined(Wires(c, fs[1..])), Wires(c, fs[1..]));
  }

  lemma {:induction false} SplitOnlyIfFits(c: Suite, fs: seq<Frame>, i: nat)
    requires Lawful(c) && SplitsExactly(c, fs) && i < |fs|
    ensures LengthFits(fs[i])
    decreases i
  {
    HeadAndTail(c, fs);
    if i > 0 { SplitOnlyIfFits(c, fs[1..], i - 1); }
  }

  /** A concatenation of frames splits back into exactly those frames if and only if no length field
      wrapped, and each frame parses to what it was built from. */
  lemma {:induction false} UniquelyDecodable(c: Suite, fs: seq<Frame>)
    requires Lawful(c)
    ensures SplitsExactly(c, fs) <==> AllFit(fs)
    ensures |Wires(c, fs)| == |fs|
    ensures forall i | 0 <= i < |fs| :: ParseMessage(Wires(c, fs)[i]) == Some(MessageOf(c, fs[i]))
  {
    if SplitsExactly(c, fs) {
      forall i | 0 <= i < |fs| ensures LengthFits(fs[i]) { SplitOnlyIfFits(c, fs, i); }
    } else if AllFit(fs) {
      SplitsBack(c, fs);
    }
    WiresAt(c, fs);
    forall i | 0 <= i < |fs| ensures ParseMessage(Wires(c, fs)[i]) == Some(MessageOf(c, fs[i])) {
      ParseBack(c, fs[i]);
    }
  }

  // ----- into a caller's buffer -----

  /** `out` holds `data` at its start and is otherwise as it was. */
  ghost predicate Written(before: Bytes, after: Bytes, data: Bytes) {
    |data| <= |before| == |after| && after[..|data|] == data && after[|data|..] == before[|data|..]
  }

  /** Write `data` behind the first `at` bytes. */
  method Append(out: array<byte>, at: nat, data: Bytes)
    requires at + |data| <= out.Length
    modifies out
    ensures out[..at + |data|] == old(out[..at]) + data
    ensures forall i | at + |data| <= i < out.Length :: out[i] == old(out[i])
  {
    forall i | 0 <= i < |data| { out[at + i] := data[i]; }
  }

  method BuildMsg1(sender: u32, noise: Bytes, out: array<byte>) returns (n: Option<nat>)
    modifies out
    ensures var data := HandshakeWire(Handshake1(sender, noise));
      if out.Length < |data| then n == None && out[..] == old(out[..])
      else n == Some(|data|) && Written(old(out[..]), out[..], data)
  {
    var needed := COMMON_PREFIX_SIZE + U32_SIZE + |noise|;
    if out.Length < needed { return None; }
    var prefix := BuildPrefix(PHASE_MSG1, 0, U32_SIZE + |noise|);
    Append(out, 0, prefix);
    Append(out, COMMON_PREFIX_SIZE, ToLe(sender, U32_SIZE));
    Append(out, COMMON_PREFIX_SIZE + U32_SIZE, noise);
    assert HandshakeWire(Handshake1(sender, noise)) == prefix + ToLe(sender, U32_SIZE) + noise;
    return Some(needed);
  }

  method BuildMsg2(sender: u32, receiver: u32, noise: Bytes, out: array<byte>) returns (n: Option<nat>)
    modifies out
    ensures var data := HandshakeWire(Handshake2(sender, receiver, noise));
      if out.Length < |data| then n == None && out[..] == old(out[..])
      else n == Some(|data|) && Written(old(out[..]), out[..], data)
  {
    var needed := COMMON_PREFIX_SIZE + U32_SIZE * 2 + |noise|;
    if out.Length < needed { return None; }
    var prefix := BuildPrefix(PHASE_MSG2, 0, U32_SIZE * 2 + |noise|);
    Append(out, 0, prefix);
    Append(out, COMMON_PREFIX_SIZE, ToLe(sender, U32_SIZE));
    Append(out, COMMON_PREFIX_SIZE + U32_SIZE, ToLe(receiver, U32_SIZE));
    Append(out, COMMON_PREFIX_SIZE + U32_SIZE * 2, noise);
    assert HandshakeWire(Handshake2(sender, receiver, noise))
        == prefix + ToLe(sender, U32_SIZE) + ToLe(receiver, U32_SIZE) + noise;
    return Some(needed);
  }

  method BuildMsg3(sender: u32, receiver: u32, noise: Bytes, out: array<byte>) returns (n: Option<nat>)
    modifies out
    ensures var data := HandshakeWire(Handshake3(sender, receiver, noise));
      if out.Length < |data| then n == None && out[..] == old(out[..])
      else n == Some(|data|) && Written(old(out[..]), out[..], data)
  {
    var needed := COMMON_PREFIX_SIZE + U32_SIZE * 2 + |noise|;
    if out.Length < needed { return None; }
    var prefix := BuildPrefix(PHASE_MSG3, 0, U32_SIZE * 2 + |noise|);
    Append(out, 0, prefix);
    Append(out, COMMON_PREFIX_SIZE, ToLe(sender, U32_SIZE));
    Append(out, COMMON_PREFIX_SIZE + U32_SIZE, ToLe(receiver, U32_SIZE));
    Append(out, COMMON_PREFIX_SIZE + U32_SIZE * 2, noise);
    assert HandshakeWire(Handshake3(sender, receiver, noise))
        == prefix + ToLe(sender, U32_SIZE) + ToLe(receiver, U32_SIZE) + noise;
    return Some(needed);
  }

  method EncryptAndAssemble(c: Suite, f: Frame, out: array<byte>) returns (n: Option<nat>)
    requires f.Data? && |Encrypted(c, f)| == |f.inner| + TAG_SIZE
    modifies out
    ensures if out.Length < |Wire(c, f)| then n == None && out[..] == old(out[..])
            else n == Some(|Wire(c, f)|) && Written(old(out[..]), out[..], Wire(c, f))
  {
    var total := ESTABLISHED_HEADER_SIZE + |f.inner| + TAG_SIZE;
    if out.Length < total { return None; }
    var header := EstablishedHeader(f.receiver, f.counter, f.flags, |f.inner|);
    Append(out, 0, header);
    Append(out, ESTABLISHED_HEADER_SIZE, c.seal(f.key, f.counter, header, f.inner));
    assert out[..total] == Wire(c, f);
    return Some(total);
  }
}
