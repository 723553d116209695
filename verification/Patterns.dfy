/** Handshake patterns as token lists, and the two ends' agreement on them.

    Section 5.3 of the Noise Protocol Framework defines a handshake message by the tokens it
    carries. `WriteTokens` and `ReadTokens` process any token list; the agreement theorem is proved
    once for them and every concrete pattern is an instance. */
module Patterns {
  import opened Results
  import opened Words
  import opened Crypto
  import opened Noise
  import Replay

  datatype Role = Initiator | Responder
  datatype Progress = Initial | Message1Done | Message2Done | Complete

  /** `e` and `s` send a key, the two-letter tokens mix in a Diffie-Hellman result (initiator's key
      first), and `Stamp` sends the startup epoch. */
  datatype Token = E | S | EE | ES | SE | SS | Stamp

  datatype Tokens = End | Then(head: Token, rest: Tokens)

  /** One end of a handshake: static and ephemeral secrets, what is known of the peer, the epochs. */
  datatype Party = Party(
    role: Role, progress: Progress, sym: Symmetric, s: Bytes, e: Option<Bytes>,
    rs: Option<Bytes>, re: Option<Bytes>, localEpoch: Option<Epoch>, remoteEpoch: Option<Epoch>)

  // ----- token processing -----

  /** The Diffie-Hellman result a two-letter token stands for, if this end holds both keys. */
  function SharedSecret(c: Suite, p: Party, t: Token): Option<Bytes> {
    match t
    case EE => if p.e.Some? && p.re.Some? then Some(c.dh(p.e.value, p.re.value)) else None
    case SS => if p.rs.Some? then Some(c.dh(p.s, p.rs.value)) else None
    case ES =>
      if p.role.Initiator? then if p.e.Some? && p.rs.Some? then Some(c.dh(p.e.value, p.rs.value)) else None
      else if p.re.Some? then Some(c.dh(p.s, p.re.value)) else None
    case SE =>
      if p.role.Initiator? then if p.re.Some? then Some(c.dh(p.s, p.re.value)) else None
      else if p.e.Some? && p.rs.Some? then Some(c.dh(p.e.value, p.rs.value)) else None
    case _ => None
  }

  function MixSecret(c: Suite, p: Party, t: Token): (Party, Result<Bytes>) {
    var secret := SharedSecret(c, p, t);
    if secret.None? then (p, Err(Panicked)) else (p.(sym := p.sym.MixKey(c, secret.value)), Ok([]))
  }

  function SendSealed(c: Suite, p: Party, plaintext: Bytes): (Party, Result<Bytes>) {
    var (sym, sealed) := p.sym.EncryptAndHash(c, plaintext);
    (p.(sym := sym), sealed)
  }

  function WriteToken(c: Suite, p: Party, t: Token, eph: Bytes): (Party, Result<Bytes>) {
    match t
    case E => (p.(e := Some(eph), sym := p.sym.MixHash(c, c.pub(eph))), Ok(c.pub(eph)))
    case S => SendSealed(c, p, c.pub(p.s))
    case Stamp => if p.localEpoch.None? then (p, Err(Panicked)) else SendSealed(c, p, p.localEpoch.value)
    case _ => MixSecret(c, p, t)
  }

  function Sealed(p: Party, size: nat): nat {
    if p.sym.cipher.hasKey then size + TAG_SIZE else size
  }

  /** Reads the token off the front of `msg`; the result is the rest of `msg`. */
  function ReadToken(c: Suite, p: Party, t: Token, msg: Bytes): (Party, Result<Bytes>) {
    match t
    case E =>
      if |msg| < PUBKEY_SIZE then (p, Err(MessageTooShort))
      else if !c.valid(msg[..PUBKEY_SIZE]) then (p, Err(InvalidPublicKey))
      else
        (p.(re := Some(msg[..PUBKEY_SIZE]), sym := p.sym.MixHash(c, msg[..PUBKEY_SIZE])), Ok(msg[PUBKEY_SIZE..]))
    case S =>
      var n := Sealed(p, PUBKEY_SIZE);
      if |msg| < n then (p, Err(MessageTooShort))
      else
        var (sym, key) := p.sym.DecryptAndHash(c, msg[..n]);
        if key.Err? then (p.(sym := sym), key)
        else if !c.valid(key.value) then (p.(sym := sym), Err(InvalidPublicKey))
        else (p.(sym := sym, rs := Some(key.value)), Ok(msg[n..]))
    case Stamp =>
      var n := Sealed(p, EPOCH_SIZE);
      if |msg| < n then (p, Err(MessageTooShort))
      else
        var (sym, epoch) := p.sym.DecryptAndHash(c, msg[..n]);
        if epoch.Err? then (p.(sym := sym), epoch)
        else if |epoch.value| != EPOCH_SIZE then (p.(sym := sym), Err(Panicked))
        else (p.(sym := sym, remoteEpoch := Some(epoch.value)), Ok(msg[n..]))
    case _ =>
      var (q, mixed) := MixSecret(c, p, t);
      (q, if mixed.Ok? then Ok(msg) else mixed)
  }

  function WriteTokens(c: Suite, p: Party, ts: Tokens, eph: Bytes): (Party, Result<Bytes>)
    decreases ts
  {
    match ts
    case End => (p, Ok([]))
    case Then(t, rest) =>
      var (q, first) := WriteToken(c, p, t, eph);
      if first.Err? then (q, first)
      else
        var (z, more) := WriteTokens(c, q, rest, eph);
        (z, if more.Ok? then Ok(first.value + more.value) else more)
  }

  function ReadTokens(c: Suite, p: Party, ts: Tokens, msg: Bytes): (Party, Result<Bytes>)
    decreases ts
  {
    match ts
    case End => (p, Ok(msg))
    case Then(t, rest) =>
      var (q, left) := ReadToken(c, p, t, msg);
      if left.Err? then (q, left) else ReadTokens(c, q, rest, left.value)
  }

  /** `WriteTokens` with part of the message already written. */
  function WriteMore(c: Suite, p: Party, ts: Tokens, eph: Bytes, message: Bytes): (Party, Result<Bytes>) {
    var (q, more) := WriteTokens(c, p, ts, eph);
    (q, if more.Ok? then Ok(message + more.value) else more)
  }

  lemma WriteMoreStart(c: Suite, p: Party, ts: Tokens, eph: Bytes)
    ensures WriteMore(c, p, ts, eph, []) == WriteTokens(c, p, ts, eph)
  {
    var more := WriteTokens(c, p, ts, eph).1;
    if more.Ok? { assert [] + more.value == more.value; }
  }

  lemma WriteMoreEnd(c: Suite, p: Party, eph: Bytes, message: Bytes)
    ensures WriteMore(c, p, End, eph, message) == (p, Ok(message))
  {
    assert message + [] == message;
  }

  lemma WriteMoreStep(c: Suite, p: Party, ts: Tokens, eph: Bytes, message: Bytes)
    requires ts.Then?
    ensures var (q, first) := WriteToken(c, p, ts.head, eph);
      WriteMore(c, p, ts, eph, message) ==
        if first.Ok? then WriteMore(c, q, ts.rest, eph, message + first.value) else (q, first)
  {
    var (q, first) := WriteToken(c, p, ts.head, eph);
    if first.Ok? {
      var others := WriteTokens(c, q, ts.rest, eph).1;
      if others.Ok? { assert message + (first.value + others.value) == (message + first.value) + others.value; }
    }
  }

  lemma {:induction false} WritingKeepsStatic(c: Suite, p: Party, ts: Tokens, eph: Bytes)
    ensures WriteTokens(c, p, ts, eph).0.rs == p.rs
    decreases ts
  {
    if ts.Then? && WriteToken(c, p, ts.head, eph).1.Ok? {
      WritingKeepsStatic(c, WriteToken(c, p, ts.head, eph).0, ts.rest, eph);
    }
  }

  lemma {:induction false} ReadingTellsStatic(c: Suite, p: Party, ts: Tokens, msg: Bytes)
    ensures !Has(ts, S) ==> ReadTokens(c, p, ts, msg).0.rs == p.rs
    ensures (Has(ts, S) || p.rs.Some?) && ReadTokens(c, p, ts, msg).1.Ok? ==> ReadTokens(c, p, ts, msg).0.rs.Some?
    decreases ts
  {
    if ts.Then? {
      var (q, left) := ReadToken(c, p, ts.head, msg);
      if left.Ok? { ReadingTellsStatic(c, q, ts.rest, left.value); }
    }
  }

  /** What a writer holds, the reader lacking nothing. */
  function WriterRing(p: Party): Keyring {
    Keyring(p.e.Some?, p.re.Some?, p.rs.Some?, true, true, true, p.sym.cipher.hasKey)
  }

  /** A writer that holds the keys its tokens need does not fail, whoever may read it. */
  lemma {:induction false} WritesOk(c: Suite, p: Party, ts: Tokens, eph: Bytes)
    requires Lawful(c) && CanSendAll(ts, p.role, WriterRing(p)) && (Has(ts, Stamp) ==> p.localEpoch.Some?)
    requires p.sym.cipher.nonce + Count(ts) <= U64_MAX
    ensures var (q, msg) := WriteTokens(c, p, ts, eph);
      msg.Ok? && q.sym.cipher.nonce <= p.sym.cipher.nonce + Count(ts)
    decreases ts
  {
    if ts.Then? {
      WriteTokenOk(c, p, ts.head, eph);
      WritesOk(c, WriteToken(c, p, ts.head, eph).0, ts.rest, eph);
    }
  }

  lemma WriteTokenOk(c: Suite, p: Party, t: Token, eph: Bytes)
    requires Lawful(c) && CanSend(t, p.role, WriterRing(p)) && (t.Stamp? ==> p.localEpoch.Some?)
    requires p.sym.cipher.nonce < U64_MAX
    ensures var (q, msg) := WriteToken(c, p, t, eph);
      && msg.Ok? && q.role == p.role && q.localEpoch == p.localEpoch && WriterRing(q) == AfterToken(t, WriterRing(p))
      && q.sym.cipher.nonce <= p.sym.cipher.nonce + 1
  {
    assert |c.pub(p.s)| == PUBKEY_SIZE by { assert c.valid(c.pub(p.s)); }
  }

  // ----- messages: tokens behind the role, progress and size guards -----

  function WriteMessage(c: Suite, p: Party, role: Role, from: Progress, ts: Tokens, to: Progress, eph: Bytes)
    : (Party, Result<Bytes>)
  {
    if p.role != role || p.progress != from then (p, Err(WrongState))
    else
      var (q, msg) := WriteTokens(c, p, ts, eph);
      (if msg.Ok? then q.(progress := to) else q, msg)
  }

  function ReadMessage(c: Suite, p: Party, role: Role, from: Progress, ts: Tokens, to: Progress, size: nat, msg: Bytes)
    : (Party, Result<()>)
  {
    if p.role != role || p.progress != from then (p, Err(WrongState))
    else if |msg| != size then (p, Err(MessageTooShort))
    else
      var (q, left) := ReadTokens(c, p, ts, msg);
      if left.Ok? then (q.(progress := to), Ok(())) else (q, Err(left.error))
  }

  /** Extra payload after the last token of a message. */
  function EncryptPayload(c: Suite, p: Party, plaintext: Bytes): (Party, Result<Bytes>) {
    SendSealed(c, p, plaintext)
  }

  function DecryptPayload(c: Suite, p: Party, ciphertext: Bytes): (Party, Result<Bytes>) {
    var (sym, plaintext) := p.sym.DecryptAndHash(c, ciphertext);
    (p.(sym := sym), plaintext)
  }

  // ----- the finished session -----

  /** The keys of a finished handshake, and the replay window of what is received under them. */
  datatype Session = Session(role: Role, send: CipherState, recv: CipherState, hash: Bytes, remoteStatic: Bytes,
                             replay: Replay.Window)

  function IntoSession(c: Suite, p: Party): Result<Session> {
    if p.progress != Complete then Err(HandshakeNotComplete)
    else if p.rs.None? then Err(Panicked)
    else
      var (c1, c2) := p.sym.Split(c);
      if p.role.Initiator? then Ok(Session(p.role, c1, c2, p.sym.h, p.rs.value, Replay.FRESH))
      else Ok(Session(p.role, c2, c1, p.sym.h, p.rs.value, Replay.FRESH))
  }

  /** The two halves of one handshake: each sends what the other receives. */
  predicate Halves(a: Session, b: Session) {
    a.role != b.role && a.send == b.recv && a.recv == b.send && a.hash == b.hash
  }

  /** The same session, however much of it has been received. */
  predicate SameKeys(a: Session, b: Session) {
    a.(replay := b.replay) == b
  }

  // ----- agreement -----

  /** What `a` knows of `b` is true; a static key may have been given with the wrong parity. */
  ghost predicate Knows(c: Suite, a: Party, b: Party) {
    && (a.re.Some? ==> b.e.Some? && a.re.value == c.pub(b.e.value))
    && (a.rs.Some? ==> c.valid(a.rs.value) && XOnly(a.rs.value) == XOnly(c.pub(b.s)))
    && (a.remoteEpoch.Some? ==> a.remoteEpoch == b.localEpoch)
  }

  ghost predicate InSync(c: Suite, a: Party, b: Party) {
    a.role != b.role && a.sym == b.sym && Knows(c, a, b) && Knows(c, b, a)
  }

  /** Which keys each end holds, and whether the cipher is keyed: what decides if tokens can be sent. */
  datatype Keyring = Keyring(we: bool, wre: bool, wrs: bool, re: bool, rre: bool, rrs: bool, keyed: bool)

  function KeyringOf(w: Party, r: Party): Keyring {
    Keyring(w.e.Some?, w.re.Some?, w.rs.Some?, r.e.Some?, r.re.Some?, r.rs.Some?,
            w.sym.cipher.hasKey)
  }

  /** Both ends hold the keys token `t` needs; `k` is seen from the writer, whose role is `role`. */
  predicate CanSend(t: Token, role: Role, k: Keyring) {
    match t
    case E => true
    case S => true
    case Stamp => true
    case EE => k.we && k.wre && k.re && k.rre
    case SS => k.wrs && k.rrs
    case ES => if role.Initiator? then k.we && k.wrs && k.rre else k.wre && k.re && k.rrs
    case SE => if role.Initiator? then k.wre && k.re && k.rrs else k.we && k.wrs && k.rre
  }

  function AfterToken(t: Token, k: Keyring): Keyring {
    match t
    case E => k.(we := true, rre := true)
    case S => k.(rrs := true)
    case Stamp => k
    case _ => k.(keyed := true)
  }

  predicate CanSendAll(ts: Tokens, role: Role, k: Keyring) {
    match ts
    case End => true
    case Then(t, rest) => CanSend(t, role, k) && CanSendAll(rest, role, AfterToken(t, k))
  }

  function AfterTokens(ts: Tokens, k: Keyring): Keyring {
    match ts
    case End => k
    case Then(t, rest) => AfterTokens(rest, AfterToken(t, k))
  }

  /** Bytes a token takes on the wire. */
  function TokenSize(t: Token, keyed: bool): nat {
    match t
    case E => PUBKEY_SIZE
    case S => if keyed then PUBKEY_SIZE + TAG_SIZE else PUBKEY_SIZE
    case Stamp => if keyed then EPOCH_SIZE + TAG_SIZE else EPOCH_SIZE
    case _ => 0
  }

  function WireSize(ts: Tokens, keyed: bool): nat {
    match ts
    case End => 0
    case Then(t, rest) => TokenSize(t, keyed) + WireSize(rest, keyed || t.EE? || t.ES? || t.SE? || t.SS?)
  }

  function Count(ts: Tokens): nat {
    if ts.End? then 0 else 1 + Count(ts.rest)
  }

  predicate Has(ts: Tokens, t: Token) {
    ts.Then? && (ts.head == t || Has(ts.rest, t))
  }

  /** Fields that sending or receiving tokens never touches. */
  predicate SameIdentity(p: Party, q: Party) {
    p.role == q.role && p.progress == q.progress && p.s == q.s && p.localEpoch == q.localEpoch
  }

  lemma {:induction false} SecretsAgree(c: Suite, w: Party, r: Party, t: Token)
    requires Lawful(c) && InSync(c, w, r) && CanSend(t, w.role, KeyringOf(w, r))
    requires t.EE? || t.ES? || t.SE? || t.SS?
    ensures SharedSecret(c, w, t).Some? && SharedSecret(c, r, t) == SharedSecret(c, w, t)
  {
    if t.EE? {
      assert c.dh(w.e.value, c.pub(r.e.value)) == c.dh(r.e.value, c.pub(w.e.value));
    } else if t.SS? {
      assert c.dh(w.s, c.pub(r.s)) == c.dh(r.s, c.pub(w.s));
      assert c.dh(w.s, w.rs.value) == c.dh(w.s, c.pub(r.s));
      assert c.dh(r.s, r.rs.value) == c.dh(r.s, c.pub(w.s));
    } else if t.ES? == w.role.Initiator? {
      assert c.dh(w.e.value, c.pub(r.s)) == c.dh(r.s, c.pub(w.e.value));
      assert c.dh(w.e.value, w.rs.value) == c.dh(w.e.value, c.pub(r.s));
    } else {
      assert c.dh(w.s, c.pub(r.e.value)) == c.dh(r.e.value, c.pub(w.s));
      assert c.dh(r.e.value, r.rs.value) == c.dh(r.e.value, c.pub(w.s));
    }
  }

  lemma {:induction false} SealedCrosses(c: Suite, w: Party, r: Party, plaintext: Bytes)
    requires Lawful(c) && w.sym == r.sym && w.sym.cipher.nonce < U64_MAX
    requires |plaintext| <= MAX_MESSAGE_SIZE - TAG_SIZE
    ensures var (q, sealed) := SendSealed(c, w, plaintext);
      && sealed.Ok? && |sealed.value| == Sealed(r, |plaintext|)
      && r.sym.DecryptAndHash(c, sealed.value) == (q.sym, Ok(plaintext))
      && q.sym.cipher.hasKey == w.sym.cipher.hasKey && q.sym.cipher.nonce <= w.sym.cipher.nonce + 1
  {
    SealedOpens(c, w.sym, plaintext);
  }

  /** The step from `(w, r)` to `(w2, r2)` kept the ends in step; the reader learned the writer's
      static key if one was sent, and its epoch if that was. */
  ghost predicate Carried(c: Suite, w: Party, r: Party, w2: Party, r2: Party, keySent: bool, stampSent: bool) {
    && InSync(c, w2, r2) && SameIdentity(w, w2) && SameIdentity(r, r2)
    && r2.rs == (if keySent then Some(c.pub(w.s)) else r.rs)
    && r2.remoteEpoch == (if stampSent then w.localEpoch else r.remoteEpoch)
    && w2.rs == w.rs && w2.remoteEpoch == w.remoteEpoch
  }

  /** One token written by one end and read by the other keeps the two in step, at the expected size. */
  ghost predicate TokenCrosses(c: Suite, w: Party, r: Party, t: Token, eph: Bytes) {
    var (w', sent) := WriteToken(c, w, t, eph);
    && sent.Ok?
    && var (r', left) := ReadToken(c, r, t, sent.value);
    && left == Ok([]) && Carried(c, w, r, w', r', t.S?, t.Stamp?)
    && KeyringOf(w', r') == AfterToken(t, KeyringOf(w, r))
    && |sent.value| == TokenSize(t, w.sym.cipher.hasKey) && w'.sym.cipher.nonce <= w.sym.cipher.nonce + 1
  }

  lemma KeyTokenAgrees(c: Suite, w: Party, r: Party, eph: Bytes)
    requires Lawful(c) && InSync(c, w, r)
    ensures TokenCrosses(c, w, r, E, eph)
  {
    assert c.pub(eph)[..PUBKEY_SIZE] == c.pub(eph) && c.pub(eph)[PUBKEY_SIZE..] == [];
  }

  lemma StaticTokenAgrees(c: Suite, w: Party, r: Party, eph: Bytes)
    requires Lawful(c) && InSync(c, w, r) && w.sym.cipher.nonce < U64_MAX
    ensures TokenCrosses(c, w, r, S, eph)
  {
    assert |c.pub(w.s)| == PUBKEY_SIZE;
    SealedCrosses(c, w, r, c.pub(w.s));
    var sent := WriteToken(c, w, S, eph).1.value;
    assert sent[..|sent|] == sent && sent[|sent|..] == [];
  }

  lemma StampTokenAgrees(c: Suite, w: Party, r: Party, eph: Bytes)
    requires Lawful(c) && InSync(c, w, r) && w.sym.cipher.nonce < U64_MAX && w.localEpoch.Some?
    ensures TokenCrosses(c, w, r, Stamp, eph)
  {
    SealedCrosses(c, w, r, w.localEpoch.value);
    var sent := WriteToken(c, w, Stamp, eph).1.value;
    assert sent[..|sent|] == sent && sent[|sent|..] == [];
  }

  lemma MixTokenCrosses(c: Suite, w: Party, r: Party, t: Token, eph: Bytes)
    requires InSync(c, w, r) && (t.EE? || t.ES? || t.SE? || t.SS?)
    requires SharedSecret(c, w, t).Some? && SharedSecret(c, r, t) == SharedSecret(c, w, t)
    ensures TokenCrosses(c, w, r, t, eph)
  {
    var sym := w.sym.MixKey(c, SharedSecret(c, w, t).value);
    assert WriteToken(c, w, t, eph) == (w.(sym := sym), Ok([]));
    assert ReadToken(c, r, t, []) == (r.(sym := sym), Ok([]));
  }

  /** Every token the two ends hold the keys for crosses. */
  lemma {:induction false} TokenAgrees(c: Suite, w: Party, r: Party, t: Token, eph: Bytes)
    requires Lawful(c) && InSync(c, w, r) && CanSend(t, w.role, KeyringOf(w, r))
    requires w.sym.cipher.nonce < U64_MAX && (t.Stamp? ==> w.localEpoch.Some?)
    ensures TokenCrosses(c, w, r, t, eph)
  {
    match t
    case E => KeyTokenAgrees(c, w, r, eph);
    case S => StaticTokenAgrees(c, w, r, eph);
    case Stamp => StampTokenAgrees(c, w, r, eph);
    case _ =>
      SecretsAgree(c, w, r, t);
      MixTokenCrosses(c, w, r, t, eph);
  }

  /** Reading a token looks at no more than the token. */
  lemma TokenPrefix(c: Suite, r: Party, t: Token, sent: Bytes, more: Bytes)
    requires ReadToken(c, r, t, sent).1 == Ok([])
    ensures ReadToken(c, r, t, sent + more) == (ReadToken(c, r, t, sent).0, Ok(more))
  {
    var n := if t.E? then PUBKEY_SIZE else if t.S? then Sealed(r, PUBKEY_SIZE)
             else if t.Stamp? then Sealed(r, EPOCH_SIZE) else 0;
    assert |sent| == n;
    assert (sent + more)[..n] == sent[..n] && (sent + more)[n..] == more;
  }

  lemma FirstTokenCrosses(c: Suite, w: Party, r: Party, t: Token, rest: Tokens, eph: Bytes)
    requires WriteToken(c, w, t, eph).1.Ok?
    requires ReadToken(c, r, t, WriteToken(c, w, t, eph).1.value).1 == Ok([])
    ensures var (w1, sent) := WriteToken(c, w, t, eph);
      var r1 := ReadToken(c, r, t, sent.value).0;
      var (w2, others) := WriteTokens(c, w1, rest, eph);
      others.Ok? ==>
        && WriteTokens(c, w, Then(t, rest), eph) == (w2, Ok(sent.value + others.value))
        && ReadTokens(c, r, Then(t, rest), sent.value + others.value) == ReadTokens(c, r1, rest, others.value)
  {
    var (w1, sent) := WriteToken(c, w, t, eph);
    var others := WriteTokens(c, w1, rest, eph).1;
    if others.Ok? { TokenPrefix(c, r, t, sent.value, others.value); }
  }

  /** What agreement means for a list of tokens. */
  ghost predicate TokensCross(c: Suite, w: Party, r: Party, ts: Tokens, eph: Bytes) {
    var (w', sent) := WriteTokens(c, w, ts, eph);
    && sent.Ok?
    && var (r', left) := ReadTokens(c, r, ts, sent.value);
    && left == Ok([]) && Carried(c, w, r, w', r', Has(ts, S), Has(ts, Stamp))
    && KeyringOf(w', r') == AfterTokens(ts, KeyringOf(w, r))
    && |sent.value| == WireSize(ts, w.sym.cipher.hasKey) && w'.sym.cipher.nonce <= w.sym.cipher.nonce + Count(ts)
  }

  lemma CrossingOn(c: Suite, w: Party, r: Party, t: Token, rest: Tokens, eph: Bytes)
    requires TokenCrosses(c, w, r, t, eph)
    requires var (w1, sent) := WriteToken(c, w, t, eph);
      TokensCross(c, w1, ReadToken(c, r, t, sent.value).0, rest, eph)
    ensures TokensCross(c, w, r, Then(t, rest), eph)
  {
    FirstTokenCrosses(c, w, r, t, rest, eph);
  }

  /** Agreement for every token list both ends hold the keys for: the message written by one end is
      read by the other, nothing is left over, and the two end in the same state. */
  lemma {:induction false} TokensAgree(c: Suite, w: Party, r: Party, ts: Tokens, eph: Bytes)
    requires Lawful(c) && InSync(c, w, r) && CanSendAll(ts, w.role, KeyringOf(w, r))
    requires w.sym.cipher.nonce + Count(ts) <= U64_MAX && (Has(ts, Stamp) ==> w.localEpoch.Some?)
    ensures TokensCross(c, w, r, ts, eph)
    decreases ts
  {
    match ts
    case End =>
    case Then(t, rest) =>
      TokenAgrees(c, w, r, t, eph);
      var (w1, sent) := WriteToken(c, w, t, eph);
      TokensAgree(c, w1, ReadToken(c, r, t, sent.value).0, rest, eph);
      CrossingOn(c, w, r, t, rest, eph);
  }
}
