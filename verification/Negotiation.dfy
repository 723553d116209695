/** Negotiation payloads: the reference codec, which builds a list of entries, and the scanner, which
    looks a field up in the bytes themselves. */
module Negotiation {
  import opened Results
  import opened Words
  import opened Crypto
  import opened LittleEndian

  const HEADER_SIZE := 10
  const FORMAT_V0: byte := 0
  const TLV_REKEY_OF: u16 := 1

  datatype Error = TooShort | BadFormat | BadVersionRange | TruncatedTlv | BadRekeyMarker

  datatype Result<+T> = Ok(value: T) | Err(error: Error)

  datatype TlvEntry = TlvEntry(fieldNum: u16, value: Bytes)

  datatype Payload = Payload(format: byte, versionMin: byte, versionMax: byte, features: u64, entries: seq<TlvEntry>)

  datatype Header = Header(versionMin: byte, versionMax: byte, features: u64)

  // ----- the fixed header -----

  /** High nibble the minimum, low nibble the maximum; what does not fit a nibble is dropped. */
  function VersionByte(min: byte, max: byte): byte {
    min % 16 * 16 + max % 16
  }

  function ParseHeader(data: Bytes): Result<Header> {
    if |data| < HEADER_SIZE then Err(TooShort)
    else if data[0] != FORMAT_V0 then Err(BadFormat)
    else if data[1] / 16 > data[1] % 16 then Err(BadVersionRange)
    else Ok(Header(data[1] / 16, data[1] % 16, U64Of(data[2..10])))
  }

  function EncodeHeader(format: byte, min: byte, max: byte, features: u64): (b: Bytes)
    ensures |b| == HEADER_SIZE
  {
    [format, VersionByte(min, max)] + ToLe(features, U64_SIZE)
  }

  lemma VersionNibbles(min: byte, max: byte)
    ensures VersionByte(min, max) / 16 == min % 16 && VersionByte(min, max) % 16 == max % 16
    ensures min % 16 == min <==> min <= 15
  {
  }

  lemma HeaderFields(format: byte, min: byte, max: byte, features: u64, rest: Bytes)
    ensures var data := EncodeHeader(format, min, max, features) + rest;
      |data| >= HEADER_SIZE && data[0] == format && data[1] == VersionByte(min, max) && U64Of(data[2..10]) == features
  {
    var data := EncodeHeader(format, min, max, features) + rest;
    assert data[2..10] == ToLe(features, U64_SIZE);
    Rooms();
    FromToLe(features, U64_SIZE);
  }

  /** The header is recovered exactly when the format is 0 and the versions are an ordered pair of
      nibbles. */
  lemma HeaderRoundTrip(format: byte, min: byte, max: byte, features: u64, rest: Bytes)
    ensures ParseHeader(EncodeHeader(format, min, max, features) + rest) == Ok(Header(min, max, features))
            && format == FORMAT_V0
       <==> format == FORMAT_V0 && min <= max <= 15
  {
    HeaderFields(format, min, max, features, rest);
    VersionNibbles(min, max);
    VersionNibbles(max, min);
  }

  lemma HeaderForced(data: Bytes)
    requires ParseHeader(data).Ok?
    ensures var h := ParseHeader(data).value;
      && EncodeHeader(FORMAT_V0, h.versionMin, h.versionMax, h.features) == data[..10]
      && h.versionMin <= h.versionMax <= 15
  {
    ToFromLe(data[2..10]);
    assert data[..10] == data[..2] + data[2..10];
  }

  // ----- version agreement -----

  function AgreeVersion(a: Header, b: Header): Result<byte> {
    var agreed := if a.versionMax < b.versionMax then a.versionMax else b.versionMax;
    if agreed < a.versionMin || agreed < b.versionMin then Err(BadVersionRange) else Ok(agreed)
  }

  predicate Supports(h: Header, v: int) {
    h.versionMin <= v <= h.versionMax
  }

  /** Agreement is symmetric; it finds the greatest version both ranges contain, and fails exactly when
      they contain none. */
  lemma AgreedVersionIsGreatest(a: Header, b: Header)
    requires a.versionMin <= a.versionMax && b.versionMin <= b.versionMax
    ensures AgreeVersion(a, b) == AgreeVersion(b, a)
    ensures AgreeVersion(a, b).Ok? <==> exists v :: Supports(a, v) && Supports(b, v)
    ensures AgreeVersion(a, b).Ok? ==>
      var v := AgreeVersion(a, b).value;
      Supports(a, v) && Supports(b, v) && forall w :: Supports(a, w) && Supports(b, w) ==> w <= v
  {
    if AgreeVersion(a, b).Ok? {
      assert Supports(a, AgreeVersion(a, b).value) && Supports(b, AgreeVersion(a, b).value);
    }
  }

  // ----- entries -----

  function EncodeEntry(e: TlvEntry): Bytes {
    ToLe(e.fieldNum, U16_SIZE) + ToLe(|e.value| % 65536, U16_SIZE) + e.value
  }

  function EncodeEntries(es: seq<TlvEntry>): Bytes {
    if es == [] then [] else EncodeEntry(es[0]) + EncodeEntries(es[1..])
  }

  /** The entry at the front of a nonempty region, if it is all there. */
  function FirstEntry(rest: Bytes): (r: Option<TlvEntry>)
    ensures r.Some? ==> 4 <= 4 + |r.value.value| <= |rest|
  {
    if |rest| < 4 then None
    else
      var n := U16At(rest[2..]);
      if 4 + n > |rest| then None else Some(TlvEntry(U16At(rest), rest[4..4 + n]))
  }

  function DecodeEntries(rest: Bytes): Result<seq<TlvEntry>>
    decreases |rest|
  {
    if rest == [] then Ok([])
    else
      var e := FirstEntry(rest);
      if e.None? then Err(TruncatedTlv)
      else
        var more := DecodeEntries(rest[4 + |e.value.value|..]);
        if more.Err? then more else Ok([e.value] + more.value)
  }

  predicate Fits(e: TlvEntry) {
    |e.value| < 65536
  }

  lemma FirstOfEncoded(e: TlvEntry, rest: Bytes)
    requires Fits(e)
    ensures FirstEntry(EncodeEntry(e) + rest) == Some(e)
    ensures (EncodeEntry(e) + rest)[4 + |e.value|..] == rest
  {
    var data := EncodeEntry(e) + rest;
    FromToLe(e.fieldNum, U16_SIZE);
    FromToLe(|e.value|, U16_SIZE);
    assert data[..2] == ToLe(e.fieldNum, U16_SIZE) && data[2..][..2] == ToLe(|e.value|, U16_SIZE);
    Rooms();
    assert data[4..4 + |e.value|] == e.value;
  }

  lemma {:induction false} DecodeEncodeEntries(es: seq<TlvEntry>)
    requires AllFit(es)
    ensures DecodeEntries(EncodeEntries(es)) == Ok(es)
  {
    if es != [] {
      DecodeEncodeEntries(es[1..]);
      FirstOfEncoded(es[0], EncodeEntries(es[1..]));
      assert es == [es[0]] + es[1..];
    }
  }

  lemma FirstForced(rest: Bytes)
    requires FirstEntry(rest).Some?
    ensures var e := FirstEntry(rest).value;
      Fits(e) && EncodeEntry(e) == rest[..4 + |e.value|]
  {
    var n := U16At(rest[2..]);
    ToFromLe(rest[..2]);
    ToFromLe(rest[2..][..2]);
    assert rest[..4 + n] == rest[..2] + rest[2..][..2] + rest[4..4 + n];
  }

  predicate AllFit(es: seq<TlvEntry>) {
    forall i | 0 <= i < |es| :: Fits(es[i])
  }

  /** `rest` is the encoding of `es`, all of which fit. */
  predicate Encodes(es: seq<TlvEntry>, rest: Bytes) {
    AllFit(es) && EncodeEntries(es) == rest
  }

  lemma {:induction false} EncodesCons(e: TlvEntry, more: seq<TlvEntry>, rest: Bytes)
    requires Fits(e) && Encodes(more, rest)
    ensures Encodes([e] + more, EncodeEntry(e) + rest)
  {
    assert ([e] + more)[1..] == more;
  }

  lemma Rejoined(b: Bytes, k: nat)
    requires k <= |b|
    ensures b[..k] + b[k..] == b
  {
  }

  lemma {:induction false} EncodeDecodeEntries(rest: Bytes)
    requires DecodeEntries(rest).Ok?
    ensures Encodes(DecodeEntries(rest).value, rest)
    decreases |rest|
  {
    if rest != [] {
      var e := FirstEntry(rest).value;
      var k := 4 + |e.value|;
      EncodeDecodeEntries(rest[k..]);
      EncodesCons(e, DecodeEntries(rest[k..]).value, rest[k..]);
      FirstForced(rest);
      Rejoined(rest, k);
    }
  }

  // ----- the reference codec -----

  function Encode(p: Payload): Bytes {
    EncodeHeader(p.format, p.versionMin, p.versionMax, p.features) + EncodeEntries(p.entries)
  }

  function Decode(data: Bytes): Result<Payload> {
    var h := ParseHeader(data);
    if h.Err? then Err(h.error)
    else
      var es := DecodeEntries(data[HEADER_SIZE..]);
      if es.Err? then Err(es.error)
      else Ok(Payload(FORMAT_V0, h.value.versionMin, h.value.versionMax, h.value.features, es.value))
  }

  /** Format 0, an ordered pair of 4-bit versions, values a 16-bit length can describe. */
  predicate Encodable(p: Payload) {
    p.format == FORMAT_V0 && p.versionMin <= p.versionMax <= 15 && AllFit(p.entries)
  }

  lemma {:induction false} DecodedParts(data: Bytes)
    requires Decode(data).Ok?
    ensures var p := Decode(data).value;
      && |data| >= HEADER_SIZE && p.format == FORMAT_V0 && p.versionMin <= p.versionMax <= 15
      && EncodeHeader(p.format, p.versionMin, p.versionMax, p.features) == data[..10]
      && DecodeEntries(data[HEADER_SIZE..]) == Ok(p.entries)
  {
    HeaderForced(data);
  }

  /** Every accepted byte string is the encoding of what it decodes to. */
  lemma {:induction false} EncodeDecode(data: Bytes)
    requires Decode(data).Ok?
    ensures Encodable(Decode(data).value) && Encode(Decode(data).value) == data
  {
    DecodedParts(data);
    EncodeDecodeEntries(data[HEADER_SIZE..]);
    assert data == data[..10] + data[HEADER_SIZE..];
  }

  /** Decoding inverts encoding exactly on the encodable payloads. */
  lemma DecodeEncode(p: Payload)
    ensures Decode(Encode(p)) == Ok(p) <==> Encodable(p)
  {
    if Encodable(p) {
      HeaderRoundTrip(p.format, p.versionMin, p.versionMax, p.features, EncodeEntries(p.entries));
      DecodeEncodeEntries(p.entries);
      assert Encode(p)[HEADER_SIZE..] == EncodeEntries(p.entries);
    } else if Decode(Encode(p)) == Ok(p) {
      EncodeDecode(Encode(p));
    }
  }

  /** A region is well formed exactly if it is the encoding of some entries. */
  lemma {:induction false} DecodableIff(rest: Bytes)
    ensures DecodeEntries(rest).Ok? <==> exists es :: Encodes(es, rest)
    ensures DecodeEntries(rest).Err? ==> DecodeEntries(rest).error == TruncatedTlv
  {
    if DecodeEntries(rest).Ok? {
      EncodeDecodeEntries(rest);
    } else if es :| Encodes(es, rest) {
      DecodeEncodeEntries(es);
    }
    TruncatedOnly(rest);
  }

  lemma {:induction false} TruncatedOnly(rest: Bytes)
    ensures DecodeEntries(rest).Err? ==> DecodeEntries(rest).error == TruncatedTlv
    decreases |rest|
  {
    if rest != [] && FirstEntry(rest).Some? { TruncatedOnly(rest[4 + |FirstEntry(rest).value.value|..]); }
  }

  /** Which error the decoder reports: the first of a short header, a format other than 0, a minimum above the
      maximum, and a region that is no sequence of entries. */
  lemma {:induction false} DecodeErrors(data: Bytes)
    ensures Decode(data) == Err(TooShort) <==> |data| < 10
    ensures Decode(data) == Err(BadFormat) <==> |data| >= 10 && data[0] != 0
    ensures Decode(data) == Err(BadVersionRange) <==> |data| >= 10 && data[0] == 0 && data[1] / 16 > data[1] % 16
    ensures Decode(data) == Err(TruncatedTlv) <==>
      |data| >= 10 && data[0] == 0 && data[1] / 16 <= data[1] % 16 && !(exists es :: Encodes(es, data[10..]))
    ensures Decode(data) != Err(BadRekeyMarker)
  {
    if |data| >= 10 { DecodableIff(data[10..]); }
  }

  /** The value of the first entry for a field. */
  function FirstMatch(es: seq<TlvEntry>, num: u16): Option<Bytes> {
    if es == [] then None else if es[0].fieldNum == num then Some(es[0].value) else FirstMatch(es[1..], num)
  }

  function RekeyMarker(value: Option<Bytes>): Result<Option<u32>> {
    if value.None? then Ok(None)
    else if |value.value| != 4 then Err(BadRekeyMarker)
    else Ok(Some(U32Of(value.value)))
  }

  function RekeyOfPayload(p: Payload): Result<Option<u32>> {
    RekeyMarker(FirstMatch(p.entries, TLV_REKEY_OF))
  }

  // ----- the scanner -----

  function Scan(rest: Bytes, num: u16): Result<Option<Bytes>>
    decreases |rest|
  {
    if rest == [] then Ok(None)
    else
      var e := FirstEntry(rest);
      if e.None? then Err(TruncatedTlv)
      else if e.value.fieldNum == num then Ok(Some(e.value.value))
      else Scan(rest[4 + |e.value.value|..], num)
  }

  function FindTlv(data: Bytes, num: u16): Result<Option<Bytes>> {
    if |data| < HEADER_SIZE then Err(TooShort) else Scan(data[HEADER_SIZE..], num)
  }

  function RekeyOf(data: Bytes): Result<Option<u32>> {
    var found := FindTlv(data, TLV_REKEY_OF);
    if found.Err? then Err(found.error) else RekeyMarker(found.value)
  }

  lemma {:induction false} ScanAgrees(rest: Bytes, num: u16)
    ensures DecodeEntries(rest).Ok? ==> Scan(rest, num) == Ok(FirstMatch(DecodeEntries(rest).value, num))
    ensures Scan(rest, num) == Ok(None) ==> DecodeEntries(rest).Ok?
    ensures Scan(rest, num).Err? ==> DecodeEntries(rest) == Err(TruncatedTlv) && Scan(rest, num).error == TruncatedTlv
    decreases |rest|
  {
    if rest != [] && FirstEntry(rest).Some? {
      var e := FirstEntry(rest).value;
      ScanAgrees(rest[4 + |e.value|..], num);
      var more := DecodeEntries(rest[4 + |e.value|..]);
      if more.Ok? { assert ([e] + more.value)[1..] == more.value; }
    }
  }

  /** On everything the reference decoder accepts, the scanner finds what the first matching decoded
      entry gives, for any field and for the rekey marker. */
  lemma ScannerRefinesDecoder(data: Bytes, num: u16)
    requires Decode(data).Ok?
    ensures FindTlv(data, num) == Ok(FirstMatch(Decode(data).value.entries, num))
    ensures RekeyOf(data) == RekeyOfPayload(Decode(data).value)
  {
    ScanAgrees(data[HEADER_SIZE..], num);
    ScanAgrees(data[HEADER_SIZE..], TLV_REKEY_OF);
  }

  /** "No such field" is said exactly of a well-formed region without that field: a malformed region
      is an error or shows the field before its defect. */
  lemma AbsenceMeansWellFormed(data: Bytes, num: u16)
    ensures FindTlv(data, num) == Ok(None)
       <==> |data| >= HEADER_SIZE && DecodeEntries(data[HEADER_SIZE..]).Ok?
            && FirstMatch(DecodeEntries(data[HEADER_SIZE..]).value, num) == None
  {
    if |data| >= HEADER_SIZE { ScanAgrees(data[HEADER_SIZE..], num); }
  }

  /** The marker is field 1, four bytes, least significant first; any other length is an error. */
  lemma {:induction false} MarkerErrors(data: Bytes)
    ensures RekeyOf(data) == Err(BadRekeyMarker) <==>
      FindTlv(data, 1).Ok? && FindTlv(data, 1).value.Some? && |FindTlv(data, 1).value.value| != 4
    ensures FindTlv(data, 1).Err? ==> RekeyOf(data).Err? && RekeyOf(data).error == FindTlv(data, 1).error
    ensures FindTlv(data, 1) == Ok(None) ==> RekeyOf(data) == Ok(None)
    ensures FindTlv(data, 1).Ok? && FindTlv(data, 1).value.Some? && |FindTlv(data, 1).value.value| == 4 ==>
      var b := FindTlv(data, 1).value.value;
      && RekeyOf(data).Ok? && RekeyOf(data).value.Some?
      && RekeyOf(data).value.value
           == b[0] as nat + 0x100 * (b[1] as nat) + 0x1_0000 * (b[2] as nat) + 0x100_0000 * (b[3] as nat)
  {
    var found := FindTlv(data, 1);
    if found.Ok? && found.value.Some? { ValueOf(found.value.value); }
    if |data| >= HEADER_SIZE { ScanAgrees(data[HEADER_SIZE..], 1); }
  }

  // ----- the leaf's own payloads -----

  /** A header and, for a rekey, the index of the session being replaced. */
  function LeafPayload(min: byte, max: byte, features: u64, rekey: Option<u32>): Payload {
    Payload(FORMAT_V0, min, max, features,
            if rekey.Some? then [TlvEntry(TLV_REKEY_OF, ToLe(rekey.value, U32_SIZE))] else [])
  }

  /** What the leaf writes, the scanner and the reference decoder both read back. */
  lemma {:induction false} LeafRoundTrip(min: byte, max: byte, features: u64, rekey: Option<u32>)
    requires min <= max <= 15
    ensures var data := Encode(LeafPayload(min, max, features, rekey));
      && ParseHeader(data) == Ok(Header(min, max, features))
      && Decode(data) == Ok(LeafPayload(min, max, features, rekey))
      && RekeyOf(data) == Ok(rekey)
  {
    var p := LeafPayload(min, max, features, rekey);
    HeaderRoundTrip(p.format, min, max, features, EncodeEntries(p.entries));
    DecodeEncode(p);
    ScannerRefinesDecoder(Encode(p), TLV_REKEY_OF);
    if rekey.Some? {
      Rooms();
      FromToLe(rekey.value, U32_SIZE);
    }
  }

  lemma {:induction false} MarkerLayout(index: u32)
    ensures ToLe(TLV_REKEY_OF, U16_SIZE) + ToLe(4, U16_SIZE) + ToLe(index, U32_SIZE) == [1, 0, 4, 0] + FourBytes(index)
  {
    BytesOf(index);
  }

  /** The leaf's bytes: format 0, the two versions in one byte, eight bytes of features, and for a rekey field 1,
      length 4 and the index, all least significant byte first. */
  lemma {:induction false} LeafLayout(min: byte, max: byte, features: u64, rekey: Option<u32>)
    requires min <= 15 && max <= 15
    ensures Encode(LeafPayload(min, max, features, rekey))
         == [0, min * 16 + max] + ToLe(features, 8)
            + (if rekey.Some? then [1, 0, 4, 0] + FourBytes(rekey.value) else [])
  {
    LeafBytes(min, max, features, rekey);
    if rekey.Some? { MarkerLayout(rekey.value); }
  }

  lemma {:induction false} Zeros(b: Bytes)
    requires forall i | 0 <= i < |b| :: b[i] == 0
    ensures FromLe(b) == 0
  {
    if b != [] { Zeros(b[1..]); }
  }

  /** Ten zero bytes offer version 0 alone and no features. */
  lemma {:induction false} ZeroOffer(data: Bytes)
    requires |data| == 10 && forall i | 0 <= i < 10 :: data[i] == 0
    ensures Decode(data) == Ok(Payload(0, 0, 0, 0, []))
  {
    Zeros(data[2..10]);
    assert data[HEADER_SIZE..] == [];
  }

  // ----- loops and buffers -----

  method FindField(data: Bytes, num: u16) returns (r: Result<Option<Bytes>>)
    ensures r == FindTlv(data, num)
  {
    if |data| < HEADER_SIZE { return Err(TooShort); }
    var rest := data[HEADER_SIZE..];
    while rest != []
      invariant Scan(rest, num) == Scan(data[HEADER_SIZE..], num)
      decreases |rest|
    {
      if |rest| < 4 { return Err(TruncatedTlv); }
      var found, n := U16At(rest), U16At(rest[2..]);
      if 4 + n > |rest| { return Err(TruncatedTlv); }
      var value := rest[4..4 + n];
      if found == num { return Ok(Some(value)); }
      rest := rest[4 + n..];
    }
    return Ok(None);
  }

  lemma EntryAt(data: Bytes, offset: nat)
    requires offset + 4 <= |data| && offset + 4 + U16At(data[offset..][2..]) <= |data|
    ensures var n := U16At(data[offset..][2..]);
      && FirstEntry(data[offset..]) == Some(TlvEntry(U16At(data[offset..]), data[offset + 4..offset + 4 + n]))
      && data[offset..][4 + n..] == data[offset + 4 + n..]
  {
    var n := U16At(data[offset..][2..]);
    assert data[offset..][4..4 + n] == data[offset + 4..offset + 4 + n];
  }

  /** The entry loop of the reference decoder. */
  method DecodeRegion(data: Bytes) returns (r: Result<seq<TlvEntry>>)
    requires |data| >= HEADER_SIZE
    ensures r == DecodeEntries(data[HEADER_SIZE..])
  {
    var entries: seq<TlvEntry>, offset := [], HEADER_SIZE;
    PrependedNone(DecodeEntries(data[HEADER_SIZE..]));
    while offset < |data|
      invariant HEADER_SIZE <= offset <= |data|
      invariant DecodeEntries(data[HEADER_SIZE..]) == Prepended(entries, DecodeEntries(data[offset..]))
    {
      if offset + 4 > |data| { return Err(TruncatedTlv); }
      var num, n := U16At(data[offset..]), U16At(data[offset..][2..]);
      if offset + 4 + n > |data| { return Err(TruncatedTlv); }
      var entry := TlvEntry(num, data[offset + 4..offset + 4 + n]);
      EntryAt(data, offset);
      PrependedStep(entries, entry, DecodeEntries(data[offset + 4 + n..]));
      entries := entries + [entry];
      offset := offset + 4 + n;
    }
    assert data[offset..] == [] && entries + [] == entries;
    return Ok(entries);
  }

  method DecodePayload(data: Bytes) returns (r: Result<Payload>)
    ensures r == Decode(data)
  {
    if |data| < HEADER_SIZE { return Err(TooShort); }
    if data[0] != FORMAT_V0 { return Err(BadFormat); }
    var min, max := data[1] / 16, data[1] % 16;
    if min > max { return Err(BadVersionRange); }
    var features := U64Of(data[2..10]);
    var entries := DecodeRegion(data);
    if entries.Err? { return Err(entries.error); }
    return Ok(Payload(FORMAT_V0, min, max, features, entries.value));
  }

  function Prepended(es: seq<TlvEntry>, r: Result<seq<TlvEntry>>): Result<seq<TlvEntry>> {
    if r.Err? then r else Ok(es + r.value)
  }

  lemma PrependedNone(r: Result<seq<TlvEntry>>)
    ensures Prepended([], r) == r
  {
    if r.Ok? { assert [] + r.value == r.value; }
  }

  lemma PrependedStep(es: seq<TlvEntry>, e: TlvEntry, r: Result<seq<TlvEntry>>)
    ensures Prepended(es, if r.Err? then r else Ok([e] + r.value)) == Prepended(es + [e], r)
  {
    if r.Ok? { assert es + ([e] + r.value) == es + [e] + r.value; }
  }

  method EncodePayload(p: Payload) returns (buf: Bytes)
    ensures buf == Encode(p)
  {
    buf := [p.format];
    buf := buf + [VersionByte(p.versionMin, p.versionMax)];
    buf := buf + ToLe(p.features, U64_SIZE);
    ghost var header := buf;
    var i := 0;
    assert p.entries[..0] == [];
    while i < |p.entries|
      invariant i <= |p.entries| && buf + EncodeEntries(p.entries[i..]) == Encode(p)
    {
      var e := p.entries[i];
      assert p.entries[i..][1..] == p.entries[i + 1..];
      var before := buf;
      buf := buf + ToLe(e.fieldNum, U16_SIZE);
      buf := buf + ToLe(|e.value| % 65536, U16_SIZE);
      buf := buf + e.value;
      assert buf + EncodeEntries(p.entries[i + 1..]) == before + (EncodeEntry(e) + EncodeEntries(p.entries[i + 1..]));
      i := i + 1;
    }
    assert p.entries[i..] == [] && buf + [] == buf;
  }

  /** Write the leaf's payload at the start of `out`; nothing is written if it does not fit. */
  method EncodeLeaf(out: array<byte>, min: byte, max: byte, features: u64, rekey: Option<u32>) returns (n: Option<nat>)
    modifies out
    ensures var data := Encode(LeafPayload(min, max, features, rekey));
      if out.Length < |data| then n == None && out[..] == old(out[..])
      else n == Some(|data|) && out[..|data|] == data && out[|data|..] == old(out[|data|..])
  {
    ghost var data := Encode(LeafPayload(min, max, features, rekey));
    LeafBytes(min, max, features, rekey);
    var needed := HEADER_SIZE;
    if rekey.Some? { needed := needed + 8; }
    if out.Length < needed { return None; }
    var header := EncodeHeader(FORMAT_V0, min, max, features);
    forall i | 0 <= i < HEADER_SIZE { out[i] := header[i]; }
    assert out[..HEADER_SIZE] == header;
    var pos := HEADER_SIZE;
    if rekey.Some? {
      var entry := ToLe(TLV_REKEY_OF, U16_SIZE) + ToLe(4, U16_SIZE) + ToLe(rekey.value, U32_SIZE);
      forall i | 0 <= i < 8 { out[HEADER_SIZE + i] := entry[i]; }
      assert out[..needed] == header + entry;
      pos := pos + 8;
    }
    return Some(pos);
  }

  lemma LeafBytes(min: byte, max: byte, features: u64, rekey: Option<u32>)
    ensures Encode(LeafPayload(min, max, features, rekey))
         == EncodeHeader(FORMAT_V0, min, max, features)
            + (if rekey.Some? then ToLe(TLV_REKEY_OF, U16_SIZE) + ToLe(4, U16_SIZE) + ToLe(rekey.value, U32_SIZE)
               else [])
  {
    var p := LeafPayload(min, max, features, rekey);
    if rekey.Some? {
      assert p.entries[1..] == [];
      assert EncodeEntries(p.entries) == EncodeEntry(p.entries[0]) + [];
    }
  }
}
