/** The handshake object of the source: fields updated in place, message by message.

    Every method is proved against the token processing of its message in module `Patterns`, and
    keeps `Valid`, which is what makes each `expect` of the source unreachable. */
module HandshakeStates {
  import opened Results
  import opened Crypto
  import opened Noise
  import opened Patterns
  import opened Handshakes

  /** Keys held at each point of a handshake; from message 2 on the cipher is keyed. An IK or XK object
      accepts the messages of either pattern, so its responder may complete without the initiator's
      static key. */
  predicate Sound(p: Party, pattern: Pattern) {
    var done2 := p.progress.Message2Done? || p.progress.Complete?;
    (done2 ==> p.sym.cipher.hasKey) &&
    if p.role.Initiator? then
      && (!pattern.Xx? ==> p.rs.Some?)
      && (!p.progress.Initial? ==> p.e.Some?)
      && (done2 ==> p.re.Some? && p.rs.Some?)
    else
      && (!p.progress.Initial? ==> p.re.Some?)
      && (done2 ==> p.e.Some?)
      && (pattern.Xx? && p.progress.Complete? ==> p.rs.Some?)
  }

  /** Across the two patterns: a responder that completes with the second message of IK then panics on
      `into_session` if and only if it did not know the initiator's static key before writing it. */
  lemma {:induction false} IkCompletionPanicsIff(c: Suite, p: Party, eph: Bytes)
    requires p.role.Responder? && Write(c, p, IkMsg2, eph).1.Ok?
    ensures IntoSession(c, Write(c, p, IkMsg2, eph).0) == Err(Panicked) <==> p.rs.None?
  {
    WritingKeepsStatic(c, p, IK2, eph);
  }

  /** The first message of IK tells the responder that key; the first of XK does not; the third does. */
  lemma {:induction false} WhoTellsTheStatic(c: Suite, p: Party, msg: Bytes)
    ensures Read(c, p, IkMsg1, msg).1.Ok? ==> Read(c, p, IkMsg1, msg).0.rs.Some?
    ensures Read(c, p, XkMsg1, msg).0.rs == p.rs
    ensures Read(c, p, XkMsg3, msg).1.Ok? ==> Read(c, p, XkMsg3, msg).0.rs.Some?
  {
    ReadingTellsStatic(c, p, IK1, msg);
    ReadingTellsStatic(c, p, XK1, msg);
    ReadingTellsStatic(c, p, XkMsg3.tokens, msg);
    IkPlayable();
    XkFirst();
    Third();
  }

  lemma {:induction false} IkSecondAfterXkFirst()
    ensures Sendable(IkMsg2, XkAfter1) && Count(IK2) <= 5
  {
  }

  /** Such a run: a responder reads the honest first message of XK, writes the second of IK without an
      error, and panics. */
  lemma {:induction false} MixedPatternsPanic(c: Suite, name: Bytes, sI: Bytes, sR: Bytes, known: Bytes, eI: Bytes,
                                              eR: Bytes, epI: Epoch, epR: Epoch)
    requires Lawful(c) && c.valid(known) && XOnly(known) == XOnly(c.pub(sR))
    ensures var msg1 := Write(c, NewInitiator(c, name, sI, known).(localEpoch := Some(epI)), XkMsg1, eI).1;
      && msg1.Ok?
      && var (r1, read) := Read(c, NewResponder(c, name, sR).(localEpoch := Some(epR)), XkMsg1, msg1.value);
      && read.Ok?
      && var (r2, msg2) := Write(c, r1, IkMsg2, eR);
      && msg2.Ok? && IntoSession(c, r2) == Err(Panicked)
  {
    var i := NewInitiator(c, name, sI, known).(localEpoch := Some(epI));
    var r := NewResponder(c, name, sR).(localEpoch := Some(epR));
    SameStart(c, name, sI, sR, known);
    XkFirst();
    MessageAgrees(c, i, r, XkMsg1, eI, ResponderKnown);
    var (i1, r1) := Deliver(c, i, r, XkMsg1, eI).value;
    IkSecondAfterXkFirst();
    MessageAgrees(c, r1, i1, IkMsg2, eR, XkAfter1);
    WhoTellsTheStatic(c, r, Write(c, i, XkMsg1, eI).1.value);
    IkCompletionPanicsIff(c, r1, eR);
  }

  class HandshakeState {
    const suite: Suite
    const pattern: Pattern
    const role: Role
    const staticKey: Bytes
    var progress: Progress
    var symmetric: Symmetric
    var ephemeral: Option<Bytes>
    var remoteStatic: Option<Bytes>
    var remoteEphemeral: Option<Bytes>
    var localEpoch: Option<Epoch>
    var remoteEpoch: Option<Epoch>

    ghost function View(): Party
      reads this
    {
      Party(role, progress, symmetric, staticKey, ephemeral, remoteStatic, remoteEphemeral, localEpoch, remoteEpoch)
    }

    ghost predicate Valid()
      reads this
    {
      OpensToSize(suite) && Sound(View(), pattern)
    }

    constructor NewXx(suite: Suite, name: Bytes, role: Role, staticKey: Bytes)
      requires OpensToSize(suite)
      ensures Valid() && pattern == Xx && this.suite == suite
      ensures View() == Handshakes.NewXx(suite, name, role, staticKey)
    {
      this.suite, this.pattern, this.role, this.staticKey := suite, Xx, role, staticKey;
      progress := Initial;
      symmetric := Initialize(suite, name);
      ephemeral, remoteStatic, remoteEphemeral, localEpoch, remoteEpoch := None, None, None, None, None;
    }

    /** IK or XK initiator: the responder's static key is known. */
    constructor NewInitiator(suite: Suite, pattern: Pattern, name: Bytes, staticKey: Bytes, remote: Bytes)
      requires OpensToSize(suite) && !pattern.Xx?
      ensures Valid() && this.pattern == pattern && this.suite == suite
      ensures View() == Handshakes.NewInitiator(suite, name, staticKey, remote)
    {
      this.suite, this.pattern, this.role, this.staticKey := suite, pattern, Initiator, staticKey;
      progress := Initial;
      symmetric := Initialize(suite, name).MixHash(suite, Normalized(remote));
      ephemeral, remoteStatic, remoteEphemeral, localEpoch, remoteEpoch := None, Some(remote), None, None, None;
    }

    constructor NewResponder(suite: Suite, pattern: Pattern, name: Bytes, staticKey: Bytes)
      requires OpensToSize(suite) && !pattern.Xx?
      ensures Valid() && this.pattern == pattern && this.suite == suite
      ensures View() == Handshakes.NewResponder(suite, name, staticKey)
    {
      this.suite, this.pattern, this.role, this.staticKey := suite, pattern, Responder, staticKey;
      progress := Initial;
      symmetric := Initialize(suite, name).MixHash(suite, Normalized(suite.pub(staticKey)));
      ephemeral, remoteStatic, remoteEphemeral, localEpoch, remoteEpoch := None, None, None, None, None;
    }

    method SetLocalEpoch(epoch: Epoch)
      requires Valid()
      modifies this`localEpoch
      ensures Valid() && View() == old(View()).(localEpoch := Some(epoch))
    {
      localEpoch := Some(epoch);
    }

    // ----- the steps messages are made of -----
    //
    // `goal` is the outcome the token processing prescribes for the whole message; each step says
    // how much of it is left.

    /** e: send a fresh ephemeral key. */
    method SendKey(eph: Bytes, ghost ts: Tokens, ghost goal: (Party, Result<Bytes>)) returns (message: Bytes)
      requires ts.Then? && ts.head.E? && goal == WriteMore(suite, View(), ts, eph, [])
      modifies this`ephemeral, this`symmetric
      ensures goal == WriteMore(suite, View(), ts.rest, eph, message)
      ensures View() == old(View()).(e := Some(eph), sym := symmetric)
    {
      WriteMoreStep(suite, View(), ts, eph, []);
      ephemeral := Some(eph);
      var ePub := suite.pub(eph);
      message := [] + ePub;
      symmetric := symmetric.MixHash(suite, ePub);
    }

    /** A two-letter token, while writing. */
    method MixWriting(secret: Bytes, public: Bytes, ghost ts: Tokens, ghost eph: Bytes, ghost message: Bytes,
                      ghost goal: (Party, Result<Bytes>))
      requires ts.Then? && SharedSecret(suite, View(), ts.head) == Some(suite.dh(secret, public))
      requires goal == WriteMore(suite, View(), ts, eph, message)
      modifies this`symmetric
      ensures goal == WriteMore(suite, View(), ts.rest, eph, message)
      ensures View() == old(View()).(sym := symmetric) && symmetric.cipher.hasKey
    {
      WriteMoreStep(suite, View(), ts, eph, message);
      symmetric := symmetric.MixKey(suite, suite.dh(secret, public));
      assert message + [] == message;
    }

    /** e and the mix that follows it. */
    method SendKeyAndMix(eph: Bytes, public: Bytes, ghost ts: Tokens, ghost goal: (Party, Result<Bytes>))
      returns (message: Bytes)
      requires ts.Then? && ts.head.E? && ts.rest.Then? && goal == WriteMore(suite, View(), ts, eph, [])
      requires (ts.rest.head.EE? && remoteEphemeral == Some(public))
            || (ts.rest.head.ES? && role.Initiator? && remoteStatic == Some(public))
      modifies this`ephemeral, this`symmetric
      ensures goal == WriteMore(suite, View(), ts.rest.rest, eph, message)
      ensures View() == old(View()).(e := Some(eph), sym := symmetric) && symmetric.cipher.hasKey
    {
      message := SendKey(eph, ts, goal);
      MixWriting(eph, public, ts.rest, eph, message, goal);
    }

    /** s: send our static key, sealed. */
    method SendStatic(message: Bytes, ghost ts: Tokens, ghost eph: Bytes, ghost goal: (Party, Result<Bytes>))
      returns (r: Result<Bytes>)
      requires ts.Then? && ts.head.S? && goal == WriteMore(suite, View(), ts, eph, message)
      modifies this`symmetric
      ensures if r.Ok? then goal == WriteMore(suite, View(), ts.rest, eph, r.value) else goal == (View(), r)
      ensures View() == old(View()).(sym := symmetric) && r != Err(Panicked)
      ensures symmetric.cipher.hasKey == old(symmetric.cipher.hasKey)
    {
      WriteMoreStep(suite, View(), ts, eph, message);
      var (after, sealed) := symmetric.EncryptAndHash(suite, suite.pub(staticKey));
      symmetric := after;
      r := if sealed.Ok? then Ok(message + sealed.value) else sealed;
    }

    /** The last two steps of a writing: a Diffie-Hellman mix, then the startup epoch, sealed. */
    method SendEpoch(secret: Bytes, public: Bytes, message: Bytes, ghost ts: Tokens, ghost eph: Bytes,
                     ghost goal: (Party, Result<Bytes>))
      returns (r: Result<Bytes>)
      requires ts.Then? && ts.rest == Then(Stamp, End) && localEpoch.Some?
      requires SharedSecret(suite, View(), ts.head) == Some(suite.dh(secret, public))
      requires goal == WriteMore(suite, View(), ts, eph, message)
      modifies this`symmetric
      ensures goal == (View(), r) && View() == old(View()).(sym := symmetric) && r != Err(Panicked)
      ensures symmetric.cipher.hasKey
    {
      MixWriting(secret, public, ts, eph, message, goal);
      WriteMoreStep(suite, View(), ts.rest, eph, message);
      var (after, sealed) := symmetric.EncryptAndHash(suite, localEpoch.value);
      symmetric := after;
      r := if sealed.Ok? then Ok(message + sealed.value) else sealed;
      if r.Ok? { WriteMoreEnd(suite, View(), eph, r.value); }
    }

    /** e: parse the peer's ephemeral key. */
    method TakeKey(ePub: Bytes, ghost left: Bytes, ghost ts: Tokens, ghost goal: (Party, Result<Bytes>))
      returns (r: Result<()>)
      requires ts.Then? && ts.head.E? && goal == ReadTokens(suite, View(), ts, left)
      requires |left| >= PUBKEY_SIZE && ePub == left[..PUBKEY_SIZE]
      modifies this`remoteEphemeral, this`symmetric
      ensures r.Ok? ==> goal == ReadTokens(suite, View(), ts.rest, left[PUBKEY_SIZE..])
      ensures r.Ok? ==> View() == old(View()).(re := Some(ePub), sym := symmetric)
      ensures r.Err? ==> View() == old(View()) && goal == (View(), Err(r.error)) && r != Err(Panicked)
    {
      if !suite.valid(ePub) { return Err(InvalidPublicKey); }
      remoteEphemeral := Some(ePub);
      symmetric := symmetric.MixHash(suite, ePub);
      r := Ok(());
    }

    /** e and the mix that follows it. */
    method TakeKeyAndMix(secret: Bytes, ePub: Bytes, ghost left: Bytes, ghost ts: Tokens, ghost goal: (Party,
                         Result<Bytes>))
      returns (r: Result<()>)
      requires ts.Then? && ts.head.E? && ts.rest.Then? && goal == ReadTokens(suite, View(), ts, left)
      requires (ts.rest.head.EE? && ephemeral == Some(secret))
            || (ts.rest.head.ES? && role.Responder? && secret == staticKey)
      requires |left| >= PUBKEY_SIZE && ePub == left[..PUBKEY_SIZE]
      modifies this`remoteEphemeral, this`symmetric
      ensures r.Ok? ==> goal == ReadTokens(suite, View(), ts.rest.rest, left[PUBKEY_SIZE..])
      ensures r.Ok? ==> View() == old(View()).(re := Some(ePub), sym := symmetric) && symmetric.cipher.hasKey
      ensures r.Err? ==> View() == old(View()) && goal == (View(), Err(r.error)) && r != Err(Panicked)
    {
      r := TakeKey(ePub, left, ts, goal);
      if r.Err? { return r; }
      MixReading(secret, ePub, left[PUBKEY_SIZE..], ts.rest, goal);
    }

    /** A two-letter token, while reading. */
    method MixReading(secret: Bytes, public: Bytes, ghost left: Bytes, ghost ts: Tokens, ghost goal: (Party,
                      Result<Bytes>))
      requires ts.Then? && SharedSecret(suite, View(), ts.head) == Some(suite.dh(secret, public))
      requires goal == ReadTokens(suite, View(), ts, left)
      modifies this`symmetric
      ensures goal == ReadTokens(suite, View(), ts.rest, left)
      ensures View() == old(View()).(sym := symmetric) && symmetric.cipher.hasKey
    {
      symmetric := symmetric.MixKey(suite, suite.dh(secret, public));
    }

    /** s: open the peer's static key. */
    method TakeStatic(ciphertext: Bytes, ghost left: Bytes, ghost ts: Tokens, ghost goal: (Party, Result<Bytes>))
      returns (r: Result<Bytes>)
      requires ts.Then? && ts.head.S? && goal == ReadTokens(suite, View(), ts, left)
      requires symmetric.cipher.hasKey && |ciphertext| == PUBKEY_SIZE + TAG_SIZE <= |left|
      requires ciphertext == left[..PUBKEY_SIZE + TAG_SIZE]
      modifies this`remoteStatic, this`symmetric
      ensures r.Ok? ==> goal == ReadTokens(suite, View(), ts.rest, left[PUBKEY_SIZE + TAG_SIZE..])
      ensures r.Ok? ==> View() == old(View()).(rs := Some(r.value), sym := symmetric)
      ensures r.Err? ==> goal == (View(), r) && View() == old(View()).(sym := symmetric) && r != Err(Panicked)
      ensures symmetric.cipher.hasKey
    {
      var (after, rs) := symmetric.DecryptAndHash(suite, ciphertext);
      symmetric := after;
      if rs.Err? { return rs; }
      if !suite.valid(rs.value) { return Err(InvalidPublicKey); }
      remoteStatic := Some(rs.value);
      r := rs;
    }

    /** The last two steps of a reading: a Diffie-Hellman mix, then the peer's epoch. */
    method TakeEpoch(secret: Bytes, public: Bytes, ciphertext: Bytes, ghost ts: Tokens, ghost goal: (Party,
                     Result<Bytes>))
      returns (r: Result<()>)
      requires OpensToSize(suite) && ts.Then? && ts.rest == Then(Stamp, End) && |ciphertext| == EPOCH_SIZE + TAG_SIZE
      requires SharedSecret(suite, View(), ts.head) == Some(suite.dh(secret, public))
      requires goal == ReadTokens(suite, View(), ts, ciphertext)
      modifies this`remoteEpoch, this`symmetric
      ensures goal == (View(), if r.Ok? then Ok([]) else Err(r.error)) && r != Err(Panicked)
      ensures View() == old(View()).(remoteEpoch := remoteEpoch, sym := symmetric) && symmetric.cipher.hasKey
    {
      MixReading(secret, public, ciphertext, ts, goal);
      assert ciphertext[..EPOCH_SIZE + TAG_SIZE] == ciphertext && ciphertext[EPOCH_SIZE + TAG_SIZE..] == [];
      var (after, epoch) := symmetric.DecryptAndHash(suite, ciphertext);
      symmetric := after;
      if epoch.Err? { return Err(epoch.error); }
      assert |epoch.value| == EPOCH_SIZE;
      remoteEpoch := Some(epoch.value);
      r := Ok(());
    }

    /** s, the mix that follows it and the epoch: the end of a reading. */
    method TakeIdentity(secret: Bytes, sealedKey: Bytes, sealedEpoch: Bytes, ghost ts: Tokens, ghost goal: (Party,
                        Result<Bytes>))
      returns (r: Result<()>)
      requires OpensToSize(suite) && ts.Then? && ts.head.S? && ts.rest.Then? && ts.rest.rest == Then(Stamp, End)
      requires (ts.rest.head.ES? && role.Initiator? && ephemeral == Some(secret))
            || (ts.rest.head.SE? && role.Responder? && ephemeral == Some(secret))
            || (ts.rest.head.SS? && secret == staticKey)
      requires goal == ReadTokens(suite, View(), ts, sealedKey + sealedEpoch) && symmetric.cipher.hasKey
      requires |sealedKey| == PUBKEY_SIZE + TAG_SIZE && |sealedEpoch| == EPOCH_SIZE + TAG_SIZE
      modifies this`remoteStatic, this`remoteEpoch, this`symmetric
      ensures goal == (View(), if r.Ok? then Ok([]) else Err(r.error)) && r != Err(Panicked)
      ensures View() == old(View()).(rs := remoteStatic, remoteEpoch := remoteEpoch, sym := symmetric)
      ensures symmetric.cipher.hasKey && (old(remoteStatic).Some? || r.Ok? ==> remoteStatic.Some?)
    {
      var left := sealedKey + sealedEpoch;
      assert left[..PUBKEY_SIZE + TAG_SIZE] == sealedKey && left[PUBKEY_SIZE + TAG_SIZE..] == sealedEpoch;
      var rs := TakeStatic(sealedKey, left, ts, goal);
      if rs.Err? { return Err(rs.error); }
      r := TakeEpoch(secret, rs.value, sealedEpoch, ts.rest, goal);
    }

    /** s, the mix that follows it and the epoch: the end of a writing. */
    method SendIdentity(public: Bytes, message: Bytes, ghost ts: Tokens, ghost eph: Bytes, ghost goal: (Party,
                        Result<Bytes>))
      returns (r: Result<Bytes>)
      requires ts.Then? && ts.head.S? && ts.rest.Then? && ts.rest.rest == Then(Stamp, End) && localEpoch.Some?
      requires SharedSecret(suite, View(), ts.rest.head) == Some(suite.dh(staticKey, public))
      requires goal == WriteMore(suite, View(), ts, eph, message)
      modifies this`symmetric
      ensures goal == (View(), r) && View() == old(View()).(sym := symmetric) && r != Err(Panicked)
      ensures r.Ok? ==> symmetric.cipher.hasKey
      ensures symmetric.cipher.hasKey || !old(symmetric.cipher.hasKey)
    {
      r := SendStatic(message, ts, eph, goal);
      if r.Ok? { r := SendEpoch(staticKey, public, r.value, ts.rest, eph, goal); }
    }

    // ----- XX -----

    /** `-> e` */
    method WriteMessage1(eph: Bytes) returns (r: Result<Bytes>)
      requires Valid() && pattern.Xx?
      modifies this
      ensures Valid() && (View(), r) == Write(suite, old(View()), XxMsg1, eph)
      ensures r != Err(Panicked)
    {
      if role != Initiator { return Err(WrongState); }
      if progress != Initial { return Err(WrongState); }
      ghost var ts: Tokens, goal := XX1, WriteTokens(suite, View(), XX1, eph);
      WriteMoreStart(suite, View(), ts, eph);
      var message := SendKey(eph, ts, goal);
      WriteMoreEnd(suite, View(), eph, message);
      r := Ok(message);
      progress := Message1Done;
    }

    /** `-> e` */
    method ReadMessage1(message: Bytes) returns (r: Result<()>)
      requires Valid() && pattern.Xx?
      modifies this
      ensures Valid() && (View(), r) == Read(suite, old(View()), XxMsg1, message)
      ensures r != Err(Panicked)
    {
      if role != Responder { return Err(WrongState); }
      if progress != Initial { return Err(WrongState); }
      if |message| != XX1_SIZE { return Err(MessageTooShort); }
      ghost var ts: Tokens, goal := XX1, ReadTokens(suite, View(), XX1, message);
      var ePub := message[..PUBKEY_SIZE];
      r := TakeKey(ePub, message, ts, goal);
      if r.Err? { return r; }
      progress := Message1Done;
      r := Ok(());
    }

    /** `<- e, ee, s, es` and the epoch */
    method WriteMessage2(eph: Bytes) returns (r: Result<Bytes>)
      requires Valid() && pattern.Xx? && localEpoch.Some?
      modifies this
      ensures Valid() && (View(), r) == Write(suite, old(View()), XxMsg2, eph)
      ensures r != Err(Panicked)
    {
      if role != Responder { return Err(WrongState); }
      if progress != Message1Done { return Err(WrongState); }
      ghost var ts: Tokens, goal := XX2, WriteTokens(suite, View(), XX2, eph);
      WriteMoreStart(suite, View(), ts, eph);
      var message := SendKeyAndMix(eph, remoteEphemeral.value, ts, goal);
      r := SendIdentity(remoteEphemeral.value, message, ts.rest.rest, eph, goal);
      if r.Err? { return r; }
      progress := Message2Done;
    }

    /** `<- e, ee, s, es` and the epoch */
    method ReadMessage2(message: Bytes) returns (r: Result<()>)
      requires Valid() && pattern.Xx?
      modifies this
      ensures Valid() && (View(), r) == Read(suite, old(View()), XxMsg2, message)
      ensures r != Err(Panicked)
    {
      if role != Initiator { return Err(WrongState); }
      if progress != Message1Done { return Err(WrongState); }
      if |message| != XX2_SIZE { return Err(MessageTooShort); }
      ghost var ts: Tokens, goal := XX2, ReadTokens(suite, View(), XX2, message);
      var ePub := message[..PUBKEY_SIZE];
      r := TakeKeyAndMix(ephemeral.value, ePub, message, ts, goal);
      if r.Err? { return r; }
      var staticEnd := 2 * PUBKEY_SIZE + TAG_SIZE;
      assert message[PUBKEY_SIZE..] == message[PUBKEY_SIZE..staticEnd] + message[staticEnd..];
      r := TakeIdentity(ephemeral.value, message[PUBKEY_SIZE..staticEnd], message[staticEnd..], ts.rest.rest, goal);
      if r.Err? { return r; }
      progress := Message2Done;
      r := Ok(());
    }

    /** Read message 2; a refused one leaves the handshake untouched, an accepted one can be undone. */
    method TryReadMessage2(message: Bytes) returns (r: Result<Rollback>)
      requires Valid() && pattern.Xx?
      modifies this
      ensures Valid() && (View(), r) == Handshakes.TryReadMessage2(suite, old(View()), message)
      ensures r.Err? ==> View() == old(View())
      ensures r.Ok? ==> Restore(View(), r.value) == old(View())
    {
      RollbackIsExact(suite, View(), XxMsg2, message, []);
      var saved := Rollback(symmetric, remoteEphemeral, remoteStatic, remoteEpoch, progress);
      var ok := ReadMessage2(message);
      if ok.Ok? { return Ok(saved); }
      RestoreMessage2(saved);
      return Err(ok.error);
    }

    method RestoreMessage2(saved: Rollback)
      requires OpensToSize(suite) && Sound(Restore(View(), saved), pattern)
      modifies this
      ensures Valid() && View() == Restore(old(View()), saved)
    {
      symmetric := saved.sym;
      remoteEphemeral := saved.re;
      remoteStatic := saved.rs;
      remoteEpoch := saved.remoteEpoch;
      progress := saved.progress;
    }

    /** `-> s, se` and the epoch, in XX and in XK */
    method WriteMessage3(ghost eph: Bytes) returns (r: Result<Bytes>)
      requires Valid() && localEpoch.Some?
      modifies this
      ensures Valid() && (View(), r) == Write(suite, old(View()), XxMsg3, eph)
      ensures r != Err(Panicked)
    {
      if role != Initiator { return Err(WrongState); }
      if progress != Message2Done { return Err(WrongState); }
      ghost var ts: Tokens, goal := XX3, WriteTokens(suite, View(), XX3, eph);
      WriteMoreStart(suite, View(), ts, eph);
      r := SendIdentity(remoteEphemeral.value, [], ts, eph, goal);
      if r.Err? { return r; }
      progress := Complete;
    }

    /** `-> s, se` and the epoch, in XX and in XK */
    method ReadMessage3(message: Bytes) returns (r: Result<()>)
      requires Valid()
      modifies this
      ensures Valid() && (View(), r) == Read(suite, old(View()), XxMsg3, message)
      ensures r != Err(Panicked)
    {
      if role != Responder { return Err(WrongState); }
      if progress != Message2Done { return Err(WrongState); }
      if |message| != XX3_SIZE { return Err(MessageTooShort); }
      ghost var ts: Tokens, goal := XX3, ReadTokens(suite, View(), XX3, message);
      var staticEnd := PUBKEY_SIZE + TAG_SIZE;
      assert message == message[..staticEnd] + message[staticEnd..];
      r := TakeIdentity(ephemeral.value, message[..staticEnd], message[staticEnd..], ts, goal);
      if r.Err? { return r; }
      progress := Complete;
      r := Ok(());
    }

    method EncryptPayload(plaintext: Bytes) returns (r: Result<Bytes>)
      requires Valid()
      modifies this`symmetric
      ensures Valid() && (View(), r) == Patterns.EncryptPayload(suite, old(View()), plaintext)
    {
      var (after, sealed) := symmetric.EncryptAndHash(suite, plaintext);
      symmetric := after;
      r := sealed;
    }

    method DecryptPayload(ciphertext: Bytes) returns (r: Result<Bytes>)
      requires Valid()
      modifies this`symmetric
      ensures Valid() && (View(), r) == Patterns.DecryptPayload(suite, old(View()), ciphertext)
    {
      var (after, plain) := symmetric.DecryptAndHash(suite, ciphertext);
      symmetric := after;
      r := plain;
    }

    method IntoSession() returns (r: Result<Session>)
      requires Valid()
      ensures r == Patterns.IntoSession(suite, View())
      ensures r == Err(Panicked) <==> progress.Complete? && remoteStatic.None?
      ensures r == Err(Panicked) ==> !pattern.Xx? && role.Responder?
    {
      if progress != Complete { return Err(HandshakeNotComplete); }
      var (c1, c2) := symmetric.Split(suite);
      if remoteStatic.None? { return Err(Panicked); }
      if role == Initiator {
        r := Ok(Session(role, c1, c2, symmetric.h, remoteStatic.value, Replay.FRESH));
      } else {
        r := Ok(Session(role, c2, c1, symmetric.h, remoteStatic.value, Replay.FRESH));
      }
    }

    // ----- XK -----

    /** `-> e, es` */
    method WriteXkMessage1(eph: Bytes) returns (r: Result<Bytes>)
      requires Valid() && !pattern.Xx?
      modifies this
      ensures Valid() && (View(), r) == Write(suite, old(View()), XkMsg1, eph)
      ensures r != Err(Panicked)
    {
      if role != Initiator { return Err(WrongState); }
      if progress != Initial { return Err(WrongState); }
      ghost var ts: Tokens, goal := XK1, WriteTokens(suite, View(), XK1, eph);
      WriteMoreStart(suite, View(), ts, eph);
      var message := SendKeyAndMix(eph, remoteStatic.value, ts, goal);
      WriteMoreEnd(suite, View(), eph, message);
      r := Ok(message);
      progress := Message1Done;
    }

    /** `-> e, es` */
    method ReadXkMessage1(message: Bytes) returns (r: Result<()>)
      requires Valid() && !pattern.Xx?
      modifies this
      ensures Valid() && (View(), r) == Read(suite, old(View()), XkMsg1, message)
      ensures r != Err(Panicked)
    {
      if role != Responder { return Err(WrongState); }
      if progress != Initial { return Err(WrongState); }
      if |message| != XK1_SIZE { return Err(MessageTooShort); }
      ghost var ts: Tokens, goal := XK1, ReadTokens(suite, View(), XK1, message);
      var ePub := message[..PUBKEY_SIZE];
      r := TakeKeyAndMix(staticKey, ePub, message, ts, goal);
      if r.Err? { return r; }
      progress := Message1Done;
      r := Ok(());
    }

    /** `<- e, ee` and the epoch */
    method WriteXkMessage2(eph: Bytes) returns (r: Result<Bytes>)
      requires Valid() && !pattern.Xx? && localEpoch.Some?
      modifies this
      ensures Valid() && (View(), r) == Write(suite, old(View()), XkMsg2, eph)
      ensures r != Err(Panicked)
    {
      if role != Responder { return Err(WrongState); }
      if progress != Message1Done { return Err(WrongState); }
      ghost var ts: Tokens, goal := XK2, WriteTokens(suite, View(), XK2, eph);
      WriteMoreStart(suite, View(), ts, eph);
      var message := SendKey(eph, ts, goal);
      r := SendEpoch(eph, remoteEphemeral.value, message, ts.rest, eph, goal);
      if r.Err? { return r; }
      progress := Message2Done;
    }

    /** `<- e, ee` and the epoch */
    method ReadXkMessage2(message: Bytes) returns (r: Result<()>)
      requires Valid() && !pattern.Xx?
      modifies this
      ensures Valid() && (View(), r) == Read(suite, old(View()), XkMsg2, message)
      ensures r != Err(Panicked)
    {
      if role != Initiator { return Err(WrongState); }
      if progress != Message1Done { return Err(WrongState); }
      if |message| != XK2_SIZE { return Err(MessageTooShort); }
      ghost var ts: Tokens, goal := XK2, ReadTokens(suite, View(), XK2, message);
      var ePub := message[..PUBKEY_SIZE];
      r := TakeKey(ePub, message, ts, goal);
      if r.Err? { return r; }
      r := TakeEpoch(ephemeral.value, ePub, message[PUBKEY_SIZE..], ts.rest, goal);
      if r.Err? { return r; }
      progress := Message2Done;
      r := Ok(());
    }

    method TryReadXkMessage2(message: Bytes) returns (r: Result<()>)
      requires Valid() && !pattern.Xx?
      modifies this
      ensures Valid() && (View(), r) == Handshakes.TryReadXkMessage2(suite, old(View()), message)
      ensures r.Err? ==> View() == old(View())
    {
      RefusedReadChangesNothing(suite, View(), message);
      var sym, re, epoch, at := symmetric, remoteEphemeral, remoteEpoch, progress;
      r := ReadXkMessage2(message);
      if r.Err? {
        symmetric, remoteEphemeral, remoteEpoch, progress := sym, re, epoch, at;
      }
    }

    // ----- IK -----

    /** `-> e, es, s, ss` and the epoch */
    method WriteIkMessage1(eph: Bytes) returns (r: Result<Bytes>)
      requires Valid() && !pattern.Xx? && localEpoch.Some?
      modifies this
      ensures Valid() && (View(), r) == Write(suite, old(View()), IkMsg1, eph)
      ensures r != Err(Panicked)
    {
      if role != Initiator { return Err(WrongState); }
      if progress != Initial { return Err(WrongState); }
      ghost var ts: Tokens, goal := IK1, WriteTokens(suite, View(), IK1, eph);
      WriteMoreStart(suite, View(), ts, eph);
      var message := SendKeyAndMix(eph, remoteStatic.value, ts, goal);
      r := SendIdentity(remoteStatic.value, message, ts.rest.rest, eph, goal);
      if r.Err? { return r; }
      progress := Message1Done;
    }

    /** `-> e, es, s, ss` and the epoch */
    method ReadIkMessage1(message: Bytes) returns (r: Result<()>)
      requires Valid() && !pattern.Xx?
      modifies this
      ensures Valid() && (View(), r) == Read(suite, old(View()), IkMsg1, message)
      ensures r != Err(Panicked)
    {
      if role != Responder { return Err(WrongState); }
      if progress != Initial { return Err(WrongState); }
      if |message| != IK1_SIZE { return Err(MessageTooShort); }
      ghost var ts: Tokens, goal := IK1, ReadTokens(suite, View(), IK1, message);
      var ePub := message[..PUBKEY_SIZE];
      r := TakeKeyAndMix(staticKey, ePub, message, ts, goal);
      if r.Err? { return r; }
      var staticEnd := 2 * PUBKEY_SIZE + TAG_SIZE;
      assert message[PUBKEY_SIZE..] == message[PUBKEY_SIZE..staticEnd] + message[staticEnd..];
      r := TakeIdentity(staticKey, message[PUBKEY_SIZE..staticEnd], message[staticEnd..], ts.rest.rest, goal);
      if r.Err? { return r; }
      progress := Message1Done;
      r := Ok(());
    }

    /** `<- e, ee`, then the responder's static with the initiator's ephemeral, and the epoch */
    method WriteIkMessage2(eph: Bytes) returns (r: Result<Bytes>)
      requires Valid() && !pattern.Xx? && localEpoch.Some?
      modifies this
      ensures Valid() && (View(), r) == Write(suite, old(View()), IkMsg2, eph)
      ensures r != Err(Panicked)
    {
      if role != Responder { return Err(WrongState); }
      if progress != Message1Done { return Err(WrongState); }
      ghost var ts: Tokens, goal := IK2, WriteTokens(suite, View(), IK2, eph);
      WriteMoreStart(suite, View(), ts, eph);
      var message := SendKeyAndMix(eph, remoteEphemeral.value, ts, goal);
      r := SendEpoch(staticKey, remoteEphemeral.value, message, ts.rest.rest, eph, goal);
      if r.Err? { return r; }
      progress := Complete;
    }

    /** `<- e, ee`, then the responder's static with our ephemeral, and the epoch */
    method ReadIkMessage2(message: Bytes) returns (r: Result<()>)
      requires Valid() && !pattern.Xx?
      modifies this
      ensures Valid() && (View(), r) == Read(suite, old(View()), IkMsg2, message)
      ensures r != Err(Panicked)
    {
      if role != Initiator { return Err(WrongState); }
      if progress != Message1Done { return Err(WrongState); }
      if |message| != IK2_SIZE { return Err(MessageTooShort); }
      ghost var ts: Tokens, goal := IK2, ReadTokens(suite, View(), IK2, message);
      var ePub := message[..PUBKEY_SIZE];
      r := TakeKeyAndMix(ephemeral.value, ePub, message, ts, goal);
      if r.Err? { return r; }
      r := TakeEpoch(ephemeral.value, remoteStatic.value, message[PUBKEY_SIZE..], ts.rest.rest, goal);
      if r.Err? { return r; }
      progress := Complete;
      r := Ok(());
    }
  }
}
